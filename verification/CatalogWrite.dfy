/** The write side of the catalog: each product is created with its one ProductCreated event. */
module CatalogWrite {
  import opened Prelude

  datatype Product = Product(id: ProductId, name: string, description: string, price: real, status: string)
  datatype Event = Event(messageId: MessageId, product: Product)
  datatype Created = Created(product: Product) | NameRequired | PriceRequired | StoreFailed

  const ACTIVE := "ACTIVE"

  // unicode.IsSpace
  predicate IsSpace(c: char) {
    c in "\t\n\U{B}\U{C}\r \U{85}\U{A0}\U{1680}\U{2028}\U{2029}\U{202F}\U{205F}\U{3000}"
        || '\U{2000}' <= c <= '\U{200A}'
  }

  /** The code points with the White_Space property. */
  lemma SpacesExact(c: char)
    ensures
      var n := c as int;
      IsSpace(c) <==>
      || 0x9 <= n <= 0xD || n == 0x20 || n == 0x85 || n == 0xA0 || n == 0x1680 || 0x2000 <= n <= 0x200A
      || 0x2028 <= n <= 0x2029 || n == 0x202F || n == 0x205F || n == 0x3000
  {}

  function TrimLeft(s: string): (t: string)
    ensures t == "" || !IsSpace(t[0])
    ensures |t| <= |s| && t == s[|s| - |t|..] && forall i | 0 <= i < |s| - |t| :: IsSpace(s[i])
  {
    if s == "" || !IsSpace(s[0]) then s else TrimLeft(s[1..])
  }

  function TrimRight(s: string): (t: string)
    ensures t == "" || !IsSpace(t[|t| - 1])
    ensures t <= s && forall i | |t| <= i < |s| :: IsSpace(s[i])
  {
    if s == "" || !IsSpace(s[|s| - 1]) then s else TrimRight(s[..|s| - 1])
  }

  function TrimSpace(s: string): string {
    TrimRight(TrimLeft(s))
  }

  /** Everything outside the slice is space, and the slice begins and ends with none. */
  ghost predicate Inside(s: string, i: nat, j: nat) {
    && i < j <= |s| && !IsSpace(s[i]) && !IsSpace(s[j - 1])
    && forall k | 0 <= k < i || j <= k < |s| :: IsSpace(s[k])
  }

  /** What trimming leaves of a name is the slice from its first character that is no space to its last. */
  lemma TrimIsSlice(s: string)
    ensures TrimSpace(s) != "" ==> exists i: nat, j: nat :: Inside(s, i, j) && TrimSpace(s) == s[i..j]
  {
    hide Inside, IsSpace;
    if TrimSpace(s) != "" {
      TrimmedInside(s, TrimLeft(s), TrimSpace(s));
    }
  }

  lemma TrimmedInside(s: string, left: string, t: string)
    requires t <= left && |left| <= |s| && left == s[|s| - |left|..]
    requires forall i | 0 <= i < |s| - |left| :: IsSpace(s[i])
    requires forall i | |t| <= i < |left| :: IsSpace(left[i])
    requires t != "" && !IsSpace(left[0]) && !IsSpace(t[|t| - 1])
    ensures
      var i := |s| - |left|;
      Inside(s, i, i + |t|) && t == s[i..i + |t|]
  {
    hide IsSpace;
    var i := |s| - |left|;
    assert s[i] == left[0];
    assert t == left[..|t|] == s[i..i + |t|];
    forall k | i + |t| <= k < |s| ensures IsSpace(s[k]) {
      assert s[k] == left[k - i];
    }
    assert s[i + |t| - 1] == t[|t| - 1];
  }

  /** A name is blank exactly when trimming leaves nothing; otherwise what is left has no space at either end. */
  lemma TrimExact(s: string)
    ensures TrimSpace(s) == "" <==> forall i | 0 <= i < |s| :: IsSpace(s[i])
    ensures TrimSpace(s) != "" ==> !IsSpace(TrimSpace(s)[0]) && !IsSpace(TrimSpace(s)[|TrimSpace(s)| - 1])
  {
    var left := TrimLeft(s);
    if left != "" {
      assert s[|s| - |left|] == left[0];
    }
  }

  /** No two events share a message id, and one product id never stands for two products. */
  ghost predicate OneEventPerProduct(events: seq<Event>) {
    && (forall i, j | 0 <= i < j < |events| :: events[i].messageId != events[j].messageId)
    && (forall i, j | 0 <= i < |events| && 0 <= j < |events| && events[i].product.id == events[j].product.id ::
          events[i].product == events[j].product)
  }

  /** The products table and the outbox hold the same products, under ids that were minted for them. */
  ghost predicate Consistent(products: map<ProductId, Product>, outbox: seq<Event>, minted: set<nat>) {
    && (forall i | 0 <= i < |outbox| ::
          && outbox[i].product.id in products && products[outbox[i].product.id] == outbox[i].product
          && outbox[i].product.id in minted && outbox[i].messageId in minted)
    && (forall id | id in products :: id in minted && exists i :: 0 <= i < |outbox| && outbox[i].product.id == id)
    && OneEventPerProduct(outbox)
  }

  lemma NewProductConsistent(products: map<ProductId, Product>, outbox: seq<Event>, minted: set<nat>, e: Event)
    requires Consistent(products, outbox, minted)
    requires e.product.id !in minted && e.messageId !in minted
    ensures Consistent(products[e.product.id := e.product], outbox + [e], minted + {e.product.id, e.messageId})
  {
    var more := outbox + [e];
    assert more[|outbox|] == e;
    forall id | id in products ensures exists i :: 0 <= i < |more| && more[i].product.id == id {
      var i :| 0 <= i < |outbox| && outbox[i].product.id == id;
      assert more[i] == outbox[i];
    }
  }

  class ProductService {
    var products: map<ProductId, Product>
    var outbox: seq<Event>
    ghost var minted: set<nat>

    ghost predicate Valid()
      reads this
    {
      Consistent(products, outbox, minted)
    }

    constructor ()
      ensures Valid() && products == map[] && outbox == [] && minted == {}
    {
      products, outbox, minted := map[], [], {};
    }

    /** The row and its event are written together or not at all, unless a failing commit took effect unheard. */
    method CreateProduct(name: string, description: string, price: real, id: ProductId, messageId: MessageId)
      returns (r: Created)
      requires Valid() && id !in minted && messageId !in minted && id != messageId
      modifies this
      ensures Valid() && minted <= old(minted) + {id, messageId}
      ensures r.NameRequired? <==> forall i | 0 <= i < |name| :: IsSpace(name[i])
      ensures r.PriceRequired? <==> !r.NameRequired? && price < 0.0
      ensures r.Created? ==>
                && r.product == Product(id, TrimSpace(name), description, price, ACTIVE)
                && products == old(products)[id := r.product] && outbox == old(outbox) + [Event(messageId, r.product)]
      ensures r.NameRequired? || r.PriceRequired? ==> products == old(products) && outbox == old(outbox)
      ensures r.StoreFailed? ==>
                || (products == old(products) && outbox == old(outbox))
                || (var p := Product(id, TrimSpace(name), description, price, ACTIVE);
                    products == old(products)[id := p] && outbox == old(outbox) + [Event(messageId, p)])
    {
      TrimExact(name);
      var trimmed := TrimSpace(name);
      var product := Product(id, trimmed, description, price, ACTIVE);
      hide Consistent;
      if trimmed == "" {
        return NameRequired;
      }
      if price < 0.0 {
        return PriceRequired;
      }
      if * {
        return StoreFailed;
      }
      NewProductConsistent(products, outbox, minted, Event(messageId, product));
      products := products[id := product];
      outbox := outbox + [Event(messageId, product)];
      minted := minted + {id, messageId};
      if * {
        return StoreFailed;
      }
      return Created(product);
    }
  }
}
