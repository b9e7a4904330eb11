/**
 * The product catalogue of the shop and the two queries the menu runs on it:
 * lookup by id and search by name.
 */
module Catalogue {
  import opened Wrappers

  /** A product; `price` is in cents, standing for the source's `double` dollars. */
  datatype Product = Product(id: int, name: string, price: int)

  /** The sample product list the menu starts with (whole-dollar prices, in cents). */
  const SampleCatalogue: seq<Product> := [
    Product(1, "Laptop", 80000),
    Product(2, "Smartphone", 50000),
    Product(3, "Headphones", 5000),
    Product(4, "Keyboard", 3000),
    Product(5, "Mouse", 2000)
  ]

  /** Index of the first product carrying `id`, if any does. */
  function FirstIndex(products: seq<Product>, id: int): (r: Option<nat>)
    ensures r.Some? ==> r.value < |products| && products[r.value].id == id
    ensures r.Some? ==> forall j :: 0 <= j < r.value ==> products[j].id != id
    ensures r.None? <==> forall j :: 0 <= j < |products| ==> products[j].id != id
  {
    if products == [] then None
    else if products[0].id == id then Some(0)
    else match FirstIndex(products[1..], id)
      case None => None
      case Some(i) => Some(i + 1)
  }

  /** The stream filter on the id followed by `findFirst`; None stands for `orElse(null)`. */
  function Lookup(catalogue: seq<Product>, id: int): (r: Option<Product>)
    ensures r.None? <==> forall p :: p in catalogue ==> p.id != id
    ensures r.Some? ==> r.value.id == id && r.value in catalogue
    ensures r.Some? ==> forall p :: p in catalogue[..FirstIndex(catalogue, id).value] ==> p.id != id
    ensures r.Some? ==> r.value == catalogue[FirstIndex(catalogue, id).value]
  {
    match FirstIndex(catalogue, id)
    case None => None
    case Some(i) => Some(catalogue[i])
  }

  /** `Character.toLowerCase` on the ASCII letters; every other character is kept. */
  function LowerChar(c: char): (r: char)
    ensures !('A' <= r <= 'Z')
    ensures 'A' <= c <= 'Z' ==> r as int == c as int + 32
    ensures !('A' <= c <= 'Z') ==> r == c
  {
    if 'A' <= c <= 'Z' then (c as int + 32) as char else c
  }

  /** `String.toLowerCase`, restricted to ASCII letters. */
  function ToLower(s: string): (r: string)
    ensures |r| == |s|
    ensures forall i :: 0 <= i < |s| ==> r[i] == LowerChar(s[i])
    ensures forall i :: 0 <= i < |r| ==> !('A' <= r[i] <= 'Z')
  {
    seq(|s|, i requires 0 <= i < |s| => LowerChar(s[i]))
  }

  /** `t` occurs in `s` starting at offset `k`. */
  predicate OccursAt(s: string, t: string, k: nat)
  {
    k + |t| <= |s| && s[k..k + |t|] == t
  }

  /** `s.contains(t)`: `t` occurs in `s` at some offset. */
  function Contains(s: string, t: string): (r: bool)
    ensures r <==> exists k: nat :: OccursAt(s, t, k)
    decreases |s|
  {
    if |t| > |s| then false
    else if s[..|t|] == t then
      assert OccursAt(s, t, 0);
      true
    else
      var r := Contains(s[1..], t);
      assert r ==> exists k: nat :: OccursAt(s, t, k) by {
        if r {
          var k: nat :| OccursAt(s[1..], t, k);
          assert s[k + 1..k + 1 + |t|] == s[1..][k..k + |t|];
          assert OccursAt(s, t, k + 1);
        }
      }
      assert (exists k: nat :: OccursAt(s, t, k)) ==> r by {
        if exists k: nat :: OccursAt(s, t, k) {
          var k: nat :| OccursAt(s, t, k);
          assert k != 0;
          assert s[1..][k - 1..k - 1 + |t|] == s[k..k + |t|];
          assert OccursAt(s[1..], t, k - 1);
        }
      }
      r
  }

  /** The search filter: the lower-cased name contains the lower-cased query. */
  predicate Matches(p: Product, query: string)
  {
    Contains(ToLower(p.name), ToLower(query))
  }

  /** The stream filter of the name search, collected in catalogue order. */
  function Search(catalogue: seq<Product>, query: string): (r: seq<Product>)
    ensures forall p :: p in r <==> p in catalogue && Matches(p, query)
    ensures |r| <= |catalogue|
  {
    if catalogue == [] then []
    else (if Matches(catalogue[0], query) then [catalogue[0]] else []) + Search(catalogue[1..], query)
  }

  /**
   * Search keeps catalogue order: searching a catalogue made of two parts
   * gives the matches of the first part followed by those of the second.
   */
  lemma {:induction false} SearchConcat(a: seq<Product>, b: seq<Product>, query: string)
    ensures Search(a + b, query) == Search(a, query) + Search(b, query)
  {
    if a == [] {
      assert a + b == b;
    } else {
      assert (a + b)[1..] == a[1..] + b;
      SearchConcat(a[1..], b, query);
    }
  }

  /** Every name contains the empty query, so an empty search lists the whole catalogue. */
  lemma {:induction false} SearchEmptyQuery(catalogue: seq<Product>)
    ensures Search(catalogue, "") == catalogue
  {
    if catalogue != [] {
      assert ToLower(catalogue[0].name)[0..0] == "";
      SearchEmptyQuery(catalogue[1..]);
    }
  }

  /** Lower-casing is idempotent: `LowerChar` maps its results to themselves. */
  lemma ToLowerIdempotent(s: string)
    ensures ToLower(ToLower(s)) == ToLower(s)
  {
  }

  /** The case of the query does not matter: queries equal after lower-casing find the same products. */
  lemma {:induction false} SearchIgnoresCase(catalogue: seq<Product>, q1: string, q2: string)
    requires ToLower(q1) == ToLower(q2)
    ensures Search(catalogue, q1) == Search(catalogue, q2)
  {
    if catalogue != [] {
      SearchIgnoresCase(catalogue[1..], q1, q2);
    }
  }

  /** The lower-cased sample names and the query "PHONE". */
  lemma SampleLowered()
    ensures ToLower("PHONE") == "phone"
    ensures ToLower("Laptop") == "laptop" && ToLower("Smartphone") == "smartphone"
    ensures ToLower("Headphones") == "headphones" && ToLower("Keyboard") == "keyboard"
    ensures ToLower("Mouse") == "mouse"
  {
  }

  /** A text lacking one of the query's characters does not contain the query. */
  lemma MissingCharNotContained(s: string, t: string, i: nat)
    requires i < |t| && t[i] !in s
    ensures !Contains(s, t)
  {
    forall k: nat | k + |t| <= |s|
      ensures !OccursAt(s, t, k)
    {
      assert s[k..k + |t|][i] == s[k + i] != t[i];
    }
  }

  /** The lower-cased sample names that contain "phone". */
  lemma SampleContainsPhone()
    ensures Contains("smartphone", "phone") && Contains("headphones", "phone")
  {
    assert OccursAt("smartphone", "phone", 5);
    assert OccursAt("headphones", "phone", 4);
  }

  /** The lower-cased sample names that do not contain "phone". */
  lemma SampleLacksPhone()
    ensures !Contains("laptop", "phone") && !Contains("keyboard", "phone") && !Contains("mouse", "phone")
  {
    MissingCharNotContained("laptop", "phone", 1);
    MissingCharNotContained("keyboard", "phone", 0);
    MissingCharNotContained("mouse", "phone", 0);
  }

  /** Which sample products match the query "PHONE". */
  lemma SampleMatchesPhone()
    ensures !Matches(SampleCatalogue[0], "PHONE") && Matches(SampleCatalogue[1], "PHONE")
    ensures Matches(SampleCatalogue[2], "PHONE") && !Matches(SampleCatalogue[3], "PHONE")
    ensures !Matches(SampleCatalogue[4], "PHONE")
  {
    var c := SampleCatalogue;
    assert c[0].name == "Laptop" && c[1].name == "Smartphone" && c[2].name == "Headphones";
    assert c[3].name == "Keyboard" && c[4].name == "Mouse";
    SampleLowered();
    SampleContainsPhone();
    SampleLacksPhone();
  }

  /** The last three sample products: only the headphones match "PHONE". */
  lemma SearchSampleTail()
    ensures Search(SampleCatalogue[2..], "PHONE") == [SampleCatalogue[2]]
  {
    var c := SampleCatalogue;
    SampleMatchesPhone();
    assert Search(c[4..], "PHONE") == [] by {
      assert c[4..][1..] == [];
    }
    assert Search(c[3..], "PHONE") == [] by {
      assert c[3..][1..] == c[4..];
    }
    assert c[2..][1..] == c[3..];
  }

  /** The last four sample products: the smartphone and the headphones match "PHONE". */
  lemma SearchSampleFromSecond()
    ensures Search(SampleCatalogue[1..], "PHONE") == [SampleCatalogue[1], SampleCatalogue[2]]
  {
    var c := SampleCatalogue;
    SampleMatchesPhone();
    SearchSampleTail();
    assert c[1..][1..] == c[2..];
  }

  /** On the sample catalogue, "PHONE" finds the smartphone and the headphones, in that order. */
  lemma SearchSample()
    ensures Search(SampleCatalogue, "PHONE") == [SampleCatalogue[1], SampleCatalogue[2]]
  {
    SampleMatchesPhone();
    SearchSampleFromSecond();
  }
}
