/** `POST /api/farmer/products`: a farmer lists a new product. */
module FarmerProducts {
  import opened Common
  import opened Entities
  import opened Db

  /** The submitted form.  Text fields are `None` when absent.  `price` and
      `quantity` are what `parseFloat`/`parseInt` read from the field, or
      from "0" when it is absent; `None` stands for NaN.  Prices are cents. */
  datatype ProductForm = ProductForm(
    farmerId: Option<Id>,
    name: Option<string>,
    description: Option<string>,
    price: Option<int>,
    quantity: Option<int>,
    category: Option<string>,
    image: Option<string>)

  datatype ProductError = MissingRequiredFields

  /** A number field is falsy when it is NaN or zero. */
  predicate Truthy(n: Option<int>)
  {
    n.Some? && n.value != 0
  }

  /** The validation: every text field present and non-empty, and price and
      quantity neither NaN nor zero.  Negative numbers pass. */
  predicate Complete(f: ProductForm)
  {
    && f.farmerId.Some? && Present(f.name) && Present(f.description)
    && Truthy(f.price) && Truthy(f.quantity)
    && Present(f.category) && Present(f.image)
  }

  /** The row a complete form becomes. */
  function ProductOf(f: ProductForm, id: Id, outOfStock: bool, now: int): (p: Product)
    requires Complete(f)
    ensures p.id == id && p.farmerId == f.farmerId.value
    ensures p.name == f.name.value && p.description == f.description.value
    ensures p.price == f.price.value && p.quantity == f.quantity.value
    ensures p.category == f.category.value && p.image == f.image.value
    ensures p.price != 0 && p.quantity != 0
  {
    Product(id, f.farmerId.value, f.name.value, f.description.value, f.price.value, f.quantity.value,
            f.category.value, f.image.value, outOfStock, now, now)
  }

  /** A negative price and quantity are accepted; only zero is refused. */
  lemma NegativeValuesPass()
    ensures Complete(ProductForm(Some(1), Some("kale"), Some("leafy"), Some(-250), Some(-3), Some("greens"), Some("k.png")))
    ensures !Complete(ProductForm(Some(1), Some("kale"), Some("leafy"), Some(250), Some(0), Some("greens"), Some("k.png")))
  {
  }

  /** The handler.  An incomplete form is refused with 400 and inserts
      nothing; a complete one inserts exactly one product carrying exactly
      the submitted fields. */
  method CreateProduct(db: Store, f: ProductForm, now: int) returns (r: Response<Product, ProductError>)
    requires db.Valid()
    modifies db
    ensures db.Valid()
    ensures !Complete(f) ==> r == Err(400, MissingRequiredFields) && unchanged(db)
    ensures Complete(f) ==>
      && r == Ok(201, ProductOf(f, old(db.nextId), db.defaults.outOfStock, now))
      && db.products == old(db.products) + [r.value]
      && db.nextId == old(db.nextId) + 1
    ensures unchanged(db`farmers, db`buyers, db`admins, db`carts, db`cartItems, db`orders, db`chats, db`notifications)
  {
    if !Complete(f) {
      return Err(400, MissingRequiredFields);
    }
    var product := ProductOf(f, db.nextId, db.defaults.outOfStock, now);
    db.products := db.products + [product];
    db.nextId := db.nextId + 1;
    r := Ok(201, product);
  }
}
