/** The client's product cache: an array of products that the service keeps
    in step with the server's replies. The network replies are parameters:
    `Success(product)` for a 2xx response, `Failure(message)` otherwise. */
module AuctionCache {
  import opened Wrappers
  import opened Records

  /** `findIndex(p => p.id === id)`: the first position holding `id`, or -1. */
  function FindIndex(s: seq<Product>, id: nat): (i: int)
    ensures -1 <= i < |s|
    ensures i == -1 <==> forall k :: 0 <= k < |s| ==> s[k].id != id
    ensures i >= 0 ==> s[i].id == id && forall k :: 0 <= k < i ==> s[k].id != id
  {
    if s == [] then -1
    else if s[0].id == id then 0
    else
      var i := FindIndex(s[1..], id);
      if i == -1 then -1 else i + 1
  }

  /** `find(p => p.id === id)`: the first product holding `id`, if any. */
  function Find(s: seq<Product>, id: nat): (r: Option<Product>)
    ensures r.None? <==> forall p :: p in s ==> p.id != id
    ensures r.Some? ==> r.value in s && r.value.id == id
    ensures r.Some? ==> exists k :: 0 <= k < |s| && s[k] == r.value && forall j :: 0 <= j < k ==> s[j].id != id
  {
    var i := FindIndex(s, id);
    if i == -1 then None else Some(s[i])
  }

  /** The cache after a bid reply: the first entry holding `id` is replaced
      by `p`; without such an entry nothing changes. */
  function ReplaceFirst(s: seq<Product>, id: nat, p: Product): (r: seq<Product>)
    ensures |r| == |s|
    ensures FindIndex(s, id) == -1 ==> r == s
    ensures FindIndex(s, id) >= 0 ==>
      r[FindIndex(s, id)] == p && forall k :: 0 <= k < |s| && k != FindIndex(s, id) ==> r[k] == s[k]
  {
    var i := FindIndex(s, id);
    if i == -1 then s else s[i := p]
  }

  /** The cache after a fetch reply: the first entry holding `id` is
      replaced by `p`, or `p` is appended when there is none. */
  function Upsert(s: seq<Product>, id: nat, p: Product): (r: seq<Product>)
    ensures |s| <= |r| <= |s| + 1
    ensures FindIndex(s, id) >= 0 ==> r == ReplaceFirst(s, id, p)
    ensures FindIndex(s, id) == -1 ==> r == s + [p]
  {
    var i := FindIndex(s, id);
    if i == -1 then s + [p] else s[i := p]
  }

  /** A product stored under its own id is what a later lookup of that id
      finds, whether it replaced an entry or was appended. */
  lemma {:induction false} FindAfterUpsert(s: seq<Product>, p: Product)
    ensures Find(Upsert(s, p.id, p), p.id) == Some(p)
  {
    var i := FindIndex(s, p.id);
    if i == -1 {
      FindIndexPrefix(s, [p], p.id);
    } else {
      FindIndexAfterReplace(s, i, p);
    }
  }

  /** Looking past a prefix that does not hold `id`. */
  lemma {:induction false} FindIndexPrefix(s: seq<Product>, t: seq<Product>, id: nat)
    requires FindIndex(s, id) == -1
    ensures FindIndex(s + t, id) == if FindIndex(t, id) == -1 then -1 else |s| + FindIndex(t, id)
  {
    if s != [] {
      assert (s + t)[1..] == s[1..] + t;
      FindIndexPrefix(s[1..], t, id);
    } else {
      assert s + t == t;
    }
  }

  /** Writing an entry with the same id at the first position holding it
      keeps that position first. */
  lemma {:induction false} FindIndexAfterReplace(s: seq<Product>, i: nat, p: Product)
    requires i < |s| && FindIndex(s, p.id) == i
    ensures FindIndex(s[i := p], p.id) == i
  {
    if i > 0 {
      assert s[i := p][1..] == s[1..][i - 1 := p];
      FindIndexAfterReplace(s[1..], i - 1, p);
    }
  }

  /** Replacing the entry of one id leaves every other id's lookup as it
      was, as long as the new product keeps the replaced id. */
  lemma {:induction false} ReplaceKeepsOtherLookups(s: seq<Product>, p: Product, q: nat)
    requires q != p.id
    ensures Find(ReplaceFirst(s, p.id, p), q) == Find(s, q)
  {
    var i := FindIndex(s, p.id);
    if i >= 0 {
      FindIndexOtherId(s, i, p, q);
    }
  }

  lemma {:induction false} FindIndexOtherId(s: seq<Product>, i: nat, p: Product, q: nat)
    requires i < |s| && s[i].id == p.id && q != p.id
    ensures FindIndex(s[i := p], q) == FindIndex(s, q)
  {
    if i > 0 {
      assert s[i := p][1..] == s[1..][i - 1 := p];
      FindIndexOtherId(s[1..], i - 1, p, q);
    }
  }

  /** The service object and its cache. */
  class AuctionService {
    var products: seq<Product>

    /** An empty cache; the initial load is `LoadProducts`. */
    constructor()
      ensures products == []
    {
      products := [];
    }

    /** `loadProducts`: a successful reply replaces the whole cache; a
        failed one is logged and changes nothing. */
    method LoadProducts(reply: Result<seq<Product>, string>)
      modifies this
      ensures reply.Success? ==> products == reply.value
      ensures reply.Failure? ==> products == old(products)
    {
      if reply.Success? {
        products := reply.value;
      }
    }

    /** `getProductById`. */
    function GetProductById(id: nat): Option<Product>
      reads this
    {
      Find(products, id)
    }

    /** `placeBid` after the request: an error reply is raised again and
        leaves the cache alone; a product reply replaces the cached entry
        for `productId` if there is one, and is never appended. */
    method PlaceBid(productId: nat, reply: Result<Product, string>) returns (r: Result<Product, string>)
      modifies this
      ensures r == reply
      ensures reply.Failure? ==> products == old(products)
      ensures reply.Success? ==> products == ReplaceFirst(old(products), productId, reply.value)
    {
      if reply.Failure? {
        return reply;
      }
      var index := FindIndex(products, productId);
      if index != -1 {
        products := products[index := reply.value];
      }
      r := reply;
    }

    /** `fetchProductWithBids` after the request: an error reply is raised
        again and leaves the cache alone; a product reply replaces the
        cached entry for `productId`, or is appended when there is none. */
    method FetchProductWithBids(productId: nat, reply: Result<Product, string>) returns (r: Result<Product, string>)
      modifies this
      ensures r == reply
      ensures reply.Failure? ==> products == old(products)
      ensures reply.Success? ==> products == Upsert(old(products), productId, reply.value)
      ensures reply.Success? && reply.value.id == productId ==> GetProductById(productId) == Some(reply.value)
    {
      if reply.Failure? {
        return reply;
      }
      var index := FindIndex(products, productId);
      if index != -1 {
        products := products[index := reply.value];
      } else {
        products := products + [reply.value];
      }
      FindAfterUpsert(old(products), reply.value);
      r := reply;
    }
  }
}
