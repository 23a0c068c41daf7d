/** The page's state and its event handlers (src/pages/Index.tsx:53-76,
    147-175, 235-278): a session holds the cart, the favourites, the order form
    and the errors shown on it, and each handler updates them in place. */
module Sessions {
  import opened Seqs
  import opened Text
  import opened Phone
  import opened Email
  import opened Menu
  import opened Cart
  import opened Favorites
  import opened OrderForms

  class Session {
    var cart: seq<CartLine>
    var favorites: seq<int>
    var orderForm: OrderForm
    var errors: map<Field, Message>

    /** What every handler keeps: one cart line per item id, no id marked twice
        as a favourite, and errors only on the fields the validation checks. */
    ghost predicate Valid()
      reads this
    {
      UniqueIds(cart) && NoDuplicates(favorites) && errors.Keys <= CheckedFields
    }

    /** The state of a freshly opened page. */
    constructor ()
      ensures Valid()
      ensures cart == [] && favorites == [] && orderForm == EmptyForm && errors == map[]
    {
      cart := [];
      favorites := [];
      orderForm := EmptyForm;
      errors := map[];
    }

    /** `addToCart(item)`. */
    method AddToCart(item: MenuItem)
      requires Valid()
      modifies this
      ensures Valid()
      ensures cart == Cart.AddToCart(old(cart), item)
      ensures TotalItems(cart) == TotalItems(old(cart)) + 1
      ensures PricedAs(old(cart), item) ==> TotalPrice(cart) == TotalPrice(old(cart)) + item.price
      ensures forall id :: QuantityOf(cart, id) == QuantityOf(old(cart), id) + (if id == item.id then 1 else 0)
      ensures favorites == old(favorites) && orderForm == old(orderForm) && errors == old(errors)
    {
      AddToCartUnique(cart, item);
      AddToCartTotals(cart, item);
      forall id ensures QuantityOf(Cart.AddToCart(cart, item), id) == QuantityOf(cart, id) + (if id == item.id then 1 else 0) {
        AddToCartQuantity(cart, item, id);
      }
      cart := Cart.AddToCart(cart, item);
    }

    /** `removeFromCart(id)`. */
    method RemoveFromCart(id: int)
      requires Valid()
      modifies this
      ensures Valid()
      ensures cart == Cart.RemoveFromCart(old(cart), id)
      ensures !HasLine(cart, id)
      ensures TotalItems(cart) == TotalItems(old(cart)) - QuantityOf(old(cart), id)
      ensures favorites == old(favorites) && orderForm == old(orderForm) && errors == old(errors)
    {
      RemoveUnique(cart, id);
      RemoveTotals(cart, id);
      cart := Cart.RemoveFromCart(cart, id);
    }

    /** `updateQuantity(id, quantity)`: 0 removes the line, any other value
        replaces the quantity of the line with this id. */
    method UpdateQuantity(id: int, quantity: int)
      requires Valid()
      modifies this
      ensures Valid()
      ensures cart == Cart.UpdateQuantity(old(cart), id, quantity)
      ensures TotalItems(cart) ==
        TotalItems(old(cart)) - QuantityOf(old(cart), id) + (if HasLine(old(cart), id) then quantity else 0)
      ensures favorites == old(favorites) && orderForm == old(orderForm) && errors == old(errors)
    {
      UpdateQuantityUnique(cart, id, quantity);
      UpdateQuantityTotals(cart, id, quantity);
      if quantity == 0 {
        RemoveFromCart(id);
        return;
      }
      cart := Cart.UpdateQuantity(cart, id, quantity);
    }

    /** `toggleFavorite(itemId)`. */
    method ToggleFavorite(id: int)
      requires Valid()
      modifies this
      ensures Valid()
      ensures favorites == Favorites.ToggleFavorite(old(favorites), id)
      ensures id in favorites <==> id !in old(favorites)
      ensures cart == old(cart) && orderForm == old(orderForm) && errors == old(errors)
    {
      favorites := Favorites.ToggleFavorite(favorites, id);
    }

    /** `handleInputChange(field, value)`: the field takes the new value and
        loses its error message, if it had one; no other field or error changes. */
    method HandleInputChange(field: Field, value: string)
      requires Valid()
      modifies this
      ensures Valid()
      ensures orderForm == Set(old(orderForm), field, value)
      ensures Get(orderForm, field) == value
      ensures forall g :: g != field ==> Get(orderForm, g) == Get(old(orderForm), g)
      ensures errors == old(errors) - {field}
      ensures cart == old(cart) && favorites == old(favorites)
    {
      orderForm := Set(orderForm, field, value);
      if field in errors {
        errors := errors - {field};
      }
    }

    /** `validateForm()`: the errors are replaced by those of the current form,
        and the result says whether there are none. */
    method ValidateForm() returns (ok: bool)
      requires Valid()
      modifies this
      ensures Valid()
      ensures errors == FormErrors(orderForm)
      ensures ok <==> errors == map[]
      ensures ok <==> (!Blank(orderForm.name) && !Blank(orderForm.address) && IsPhone(orderForm.phone) &&
                       (orderForm.email == "" || IsEmail(orderForm.email)))
      ensures cart == old(cart) && favorites == old(favorites) && orderForm == old(orderForm)
    {
      var newErrors := ComputeErrors(orderForm);
      errors := newErrors;
      NoErrorsIff(orderForm);
      ok := |newErrors| == 0;
      assert ok <==> newErrors == map[] by {
        if |newErrors| != 0 {
          assert newErrors.Keys != {};
        }
      }
    }

    /** `handleSubmitOrder()`: the order is placed only when the form is valid,
        and placing it empties the cart; the form itself is kept as it was. */
    method HandleSubmitOrder() returns (placed: bool)
      requires Valid()
      modifies this
      ensures Valid()
      ensures errors == FormErrors(orderForm)
      ensures placed <==> errors == map[]
      ensures placed ==> cart == []
      ensures !placed ==> cart == old(cart)
      ensures orderForm == old(orderForm) && favorites == old(favorites)
    {
      placed := ValidateForm();
      if !placed {
        return;
      }
      cart := [];
    }
  }
}
