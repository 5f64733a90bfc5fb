/** `CacheKeys`: the names of the product service's cache entries, and why entries of
    different products, pages and families never share a name. */
module CacheKeys {
  import opened JavaInt

  /** What a page key holds after its owner's id and a colon. */
  function PageSuffix(page: Int32): (t: string)
    ensures |t| > 14 && t[0] == 'p' && t[14..] == Decimal(page)
  {
    "products:page:" + Decimal(page)
  }

  /** The page part of a page key, read as a colon and the page suffix. */
  lemma PageTextSplits(head: string, d: string)
    ensures head + ":products:page:" + d == head + ":" + ("products:page:" + d)
  {
    assert ":products:page:" == ":" + "products:page:";
  }

  function ProductKey(productId: string): (k: string)
    ensures |k| == |productId| + 8 && k[0] == 'p' && k[..8] == "product:" && k[8..] == productId
  {
    "product:" + productId
  }

  /** The key of one page of a category's product listing; the page number is written as
      `Integer.toString` writes it. */
  function CategoryProductsKey(categorySlug: string, page: Int32): (k: string)
    ensures |k| > 9 && k[0] == 'c' && k[..9] == "category:"
    ensures k[9..] == categorySlug + ":" + PageSuffix(page)
  {
    var head := "category:" + categorySlug;
    PageTextSplits(head, Decimal(page));
    head + ":products:page:" + Decimal(page)
  }

  function SellerProductsKey(sellerId: string, page: Int32): (k: string)
    ensures |k| > 7 && k[0] == 's' && k[..7] == "seller:"
    ensures k[7..] == sellerId + ":" + PageSuffix(page)
  {
    var head := "seller:" + sellerId;
    PageTextSplits(head, Decimal(page));
    head + ":products:page:" + Decimal(page)
  }

  function InventoryKey(productId: string): (k: string)
    ensures |k| == |productId| + 10 && k[0] == 'i' && k[..10] == "inventory:" && k[10..] == productId
  {
    "inventory:" + productId
  }

  function SearchKey(queryHash: string): (k: string)
    ensures |k| >= 7 && k[..7] == "search:" && k[7..] == queryHash
  {
    "search:" + queryHash
  }

  function CategoryFiltersKey(categoryId: string): (k: string)
    ensures |k| > 9 && k[..9] == "category:" && k[9..] == categoryId + ":" + "filters"
  {
    "category:" + categoryId + ":filters"
  }

  /** A colon-free head is recovered from text that joins it to a tail by a colon. */
  lemma ColonFreeSplit(s1: string, t1: string, s2: string, t2: string)
    requires ':' !in s1 && ':' !in s2
    requires s1 + ":" + t1 == s2 + ":" + t2
    ensures s1 == s2 && t1 == t2
  {
    var x := s1 + ":" + t1;
    assert x[|s1|] == ':' && x[|s2|] == ':';
    assert forall i :: 0 <= i < |s1| ==> x[i] == s1[i];
    assert forall i :: 0 <= i < |s2| ==> x[i] == s2[i];
    assert |s1| == |s2|;
    assert s1 == x[..|s1|] == s2;
    assert t1 == x[|s1| + 1..] == t2;
  }

  /** Different products have different product keys. */
  lemma ProductKeyInjective(a: string, b: string)
    requires ProductKey(a) == ProductKey(b)
    ensures a == b
  {
    assert a == ProductKey(a)[8..];
  }

  /** Different products have different inventory keys. */
  lemma InventoryKeyInjective(a: string, b: string)
    requires InventoryKey(a) == InventoryKey(b)
    ensures a == b
  {
    assert a == InventoryKey(a)[10..];
  }

  /** For colon-free slugs (a UUID's text among them), a category page key names exactly
      one slug and one page. */
  lemma {:induction false} CategoryProductsKeyInjective(a: string, p: Int32, b: string, q: Int32)
    requires ':' !in a && ':' !in b
    requires CategoryProductsKey(a, p) == CategoryProductsKey(b, q)
    ensures a == b && p == q
  {
    ColonFreeSplit(a, PageSuffix(p), b, PageSuffix(q));
    DecimalInjective(p, q);
  }

  /** For colon-free seller ids, a seller page key names exactly one seller and one page. */
  lemma {:induction false} SellerProductsKeyInjective(a: string, p: Int32, b: string, q: Int32)
    requires ':' !in a && ':' !in b
    requires SellerProductsKey(a, p) == SellerProductsKey(b, q)
    ensures a == b && p == q
  {
    ColonFreeSplit(a, PageSuffix(p), b, PageSuffix(q));
    DecimalInjective(p, q);
  }

  /** Keys of different families differ in their first characters. */
  lemma KeyFamiliesDiffer(a: string, b: string, p: Int32, q: Int32)
    ensures ProductKey(a) != InventoryKey(b)
    ensures ProductKey(a) != CategoryProductsKey(b, q) && ProductKey(a) != SellerProductsKey(b, q)
    ensures InventoryKey(a) != CategoryProductsKey(b, q) && InventoryKey(a) != SellerProductsKey(b, q)
    ensures CategoryProductsKey(a, p) != SellerProductsKey(b, q)
  {
  }

  /** Search keys share only their first letter with seller page keys, and none with
      product or inventory keys. */
  lemma SearchKeysDiffer(a: string, b: string, q: Int32)
    ensures SearchKey(a) != SellerProductsKey(b, q)
    ensures SearchKey(a) != ProductKey(b) && SearchKey(a) != InventoryKey(b)
  {
    assert "search:" != "seller:" by {
      assert "search:"[2] != "seller:"[2];
    }
    assert SearchKey(a)[..7] != SellerProductsKey(b, q)[..7];
    assert SearchKey(a)[0] == "search:"[0];
  }

  /** A category page key never names a category's filters: the one ends in the last digit
      of the page number, the other in `s`. */
  lemma PageKeyIsNotFiltersKey(a: string, p: Int32, b: string)
    ensures CategoryProductsKey(a, p) != CategoryFiltersKey(b)
  {
    var k, d := CategoryProductsKey(a, p), Decimal(p);
    var f := CategoryFiltersKey(b);
    assert k[|k| - 1] == d[|d| - 1];
    assert '0' <= d[|d| - 1] <= '9';
    assert f[|f| - 1] == 's';
  }
}
