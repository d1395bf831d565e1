/**
 * The MySQL tables the controllers read and write, as in-memory rows.
 *
 * One `Tables` value is the whole database; a `Database` object holds the
 * committed state. Every auto-increment id comes from the single counter
 * `nextId`, so the ids a batch INSERT hands out are consecutive and ids are
 * never reused. Times are whole seconds.
 */
module Schema {
  import opened Wrappers
  import opened JsValues

  datatype User = User(
    id: nat, firstName: string, lastName: string, email: string, mobile: string,
    otp: Option<string>, password: string, userType: string, role: Option<string>)

  /** `school_id` may be NULL. */
  datatype Student = Student(id: nat, userId: nat, schoolId: Option<nat>)

  /** `employee_id` links the school to its sales executive (SE); it may be NULL. */
  datatype School = School(
    id: nat, userId: nat, schoolName: string,
    pinCode: Option<string>, city: Option<string>, state: Option<string>, address: Option<string>,
    employeeId: Option<string>, rewardPoints: int)

  datatype SeEmployee = SeEmployee(id: nat, userId: nat, employeeId: string, role: string, redeemPoints: int)

  /**
   * A row of one of the three coupon pools `coupons` (school coupons),
   * `student_coupons` and `couponsall` (universal coupons), which share
   * these columns. `current_uses` may be NULL.
   */
  datatype Coupon = Coupon(
    id: nat, code: string, name: Option<string>, schoolId: Option<nat>, seEmployeeId: Option<string>,
    discountPct: real, validFrom: int, validUntil: int, maxUses: int, currentUses: Option<int>,
    isActive: bool)

  /** A row of `coupon_usage_log`; `couponTable` names the pool the coupon came from. */
  datatype UsageLogRow = UsageLogRow(
    userId: nat, couponCode: string, discountAmount: real, orderTotal: real,
    pointsAwarded: int, couponTable: string)

  datatype Shipping = Shipping(
    fullName: string, email: string, address: string, city: string, state: string,
    pincode: string, phone: string)

  /** One cart line as the client sends it with the order. */
  datatype OrderItem = OrderItem(productId: nat, name: string, price: real, quantity: int)

  /** A row of `orders`; `items` is the snapshot of the list passed in. */
  datatype Order = Order(
    id: nat, userId: Option<nat>, shipping: Shipping, total: real, couponCode: Option<string>,
    items: seq<OrderItem>)

  datatype Cart = Cart(id: nat, userId: nat)

  /** The `cartId` column: a `carts` id, or the text id of a guest cart. */
  datatype CartKey = CartNo(n: nat) | GuestKey(s: string)

  datatype CartItem = CartItem(id: nat, cartId: CartKey, productId: nat, quantity: int)

  /**
   * A `cart_items` row with the columns models/cartModel.js reads and writes.
   * The model keeps these rows apart from `cartItems`; see README.
   */
  datatype CartModelItem = CartModelItem(id: nat, name: string, price: JsValue, quantity: int, image: string)

  datatype WishlistRow = WishlistRow(userId: nat, productId: nat, createdAt: int)

  datatype RedeemRequest = RedeemRequest(id: nat, seId: string, points: int)

  datatype RewardRow = RewardRow(
    seEmployeeId: string, couponCode: string, schoolId: nat, discountPct: real,
    discountAmount: real, orderId: nat, createdAt: int)

  datatype HotDeal = HotDeal(
    id: nat, title: Option<string>, imagePath: Option<string>, price: Option<string>,
    offerText: Option<string>, isVisible: bool, subcategoryId: Option<string>)

  /** `discount_percentage` is kept as the text it was given. */
  datatype Product = Product(
    id: nat, name: Option<string>, slug: string, shortDescription: Option<string>,
    description: Option<string>, price: real, stockQuantity: int,
    categoryId: Option<nat>, subcategoryId: Option<nat>, subSubcategoryId: Option<nat>,
    discountPct: string, isTrending: bool, createdAt: int)

  /** `product_id` is written as the request's parsed id, whether or not a product has it. */
  datatype ProductImage = ProductImage(productId: int, imageUrl: string)
  datatype ProductAttribute = ProductAttribute(productId: nat, attributeId: nat)
  datatype Attribute = Attribute(id: nat, value: string)

  datatype Category = Category(id: nat, name: string)
  datatype Subcategory = Subcategory(id: nat, categoryId: nat, name: string)
  datatype SubSubcategory = SubSubcategory(id: nat, subcategoryId: nat, name: string)

  /**
   * A `coupons` row with the columns controllers/couponApplicationController.js
   * reads. The model keeps these rows apart from `coupons`; see README.
   */
  datatype AppCoupon = AppCoupon(
    id: nat, couponCode: string, discountPct: real, validFrom: int, validUntil: int,
    maxUses: int, minimumOrder: Option<real>)

  /** A row of `coupon_usage`: one application of an `AppCoupon`. */
  datatype CouponUse = CouponUse(couponId: nat, userId: Option<nat>, usedAt: int)

  datatype Tables = Tables(
    users: seq<User>,
    students: seq<Student>,
    schools: seq<School>,
    seEmployees: seq<SeEmployee>,
    coupons: seq<Coupon>,
    studentCoupons: seq<Coupon>,
    couponsAll: seq<Coupon>,
    usageLog: seq<UsageLogRow>,
    orders: seq<Order>,
    carts: seq<Cart>,
    cartItems: seq<CartItem>,
    cartModelItems: seq<CartModelItem>,
    wishlist: seq<WishlistRow>,
    redeemRequests: seq<RedeemRequest>,
    rewardTracking: seq<RewardRow>,
    hotDeals: seq<HotDeal>,
    products: seq<Product>,
    productImages: seq<ProductImage>,
    productAttributes: seq<ProductAttribute>,
    attributes: seq<Attribute>,
    categories: seq<Category>,
    subcategories: seq<Subcategory>,
    subSubcategories: seq<SubSubcategory>,
    appCoupons: seq<AppCoupon>,
    couponUsage: seq<CouponUse>,
    nextId: nat)

  /** The committed state of the database. */
  class Database {
    var t: Tables

    constructor (initial: Tables)
      ensures t == initial
    {
      t := initial;
    }
  }

  /** A nullable id column is truthy when it is neither NULL nor 0. */
  predicate TruthyId(x: Option<nat>) {
    x.Some? && x.value != 0
  }

  /** A nullable text column is truthy when it is neither NULL nor "". */
  predicate TruthyText(x: Option<string>) {
    x.Some? && x.value != ""
  }

  /** `x || null` for a text value. */
  function TextOrNull(x: string): (r: Option<string>)
    ensures r.None? <==> x == ""
    ensures r.Some? ==> r.value == x
  {
    if x == "" then None else Some(x)
  }
}
