/** The product catalog: the product record, lookup by id, the search and
    category filters of the product listing, and its 1-indexed pagination. */
module Catalog {
  import opened Seqs

  /** A product. `price` is in integer cents; `stock` is an integer because
      checkout decrements it without a lower bound. */
  datatype Product = Product(
    id: int,
    name: string,
    price: int,
    category: string,
    description: string,
    image: string,
    stock: int)

  /** The fields an administrator supplies to create or update a product. */
  datatype ProductDraft = ProductDraft(
    name: string,
    price: int,
    category: string,
    description: string,
    image: string,
    stock: int)

  /** The product with identifier `id` and the fields of `d`. */
  function FromDraft(id: int, d: ProductDraft): (p: Product)
    ensures p.id == id && DraftOf(p) == d
  {
    Product(id, d.name, d.price, d.category, d.description, d.image, d.stock)
  }

  /** The fields of `p` other than its identifier. */
  function DraftOf(p: Product): ProductDraft
  {
    ProductDraft(p.name, p.price, p.category, p.description, p.image, p.stock)
  }

  /** No two products share an identifier. */
  predicate UniqueIds(ps: seq<Product>)
  {
    forall i, j :: 0 <= i < j < |ps| ==> ps[i].id != ps[j].id
  }

  /** The position of the first product with identifier `id`, or -1 when
      there is none (`findIndex` on the catalog; `find` is the product there). */
  function ProductIndex(ps: seq<Product>, id: int): (k: int)
    ensures -1 <= k < |ps|
    ensures k >= 0 ==> ps[k].id == id
    ensures forall j :: 0 <= j < |ps| && (k == -1 || j < k) ==> ps[j].id != id
  {
    FindIndex((p: Product) => p.id == id, ps)
  }

  /** With unique identifiers, the product at position `j` is found by its own id. */
  lemma ProductIndexOfUnique(ps: seq<Product>, j: int)
    requires UniqueIds(ps) && 0 <= j < |ps|
    ensures ProductIndex(ps, ps[j].id) == j
  {
  }

  // ---------------------------------------------------------------------
  // Text matching for the search filter.

  /** `toLowerCase` on one character; only the ASCII letters are mapped. */
  function LowerChar(c: char): (d: char)
    ensures 'A' <= c <= 'Z' ==> 'a' <= d <= 'z' && d as int == c as int + 32
    ensures !('A' <= c <= 'Z') ==> d == c
  {
    if 'A' <= c <= 'Z' then (c as int - 'A' as int + 'a' as int) as char else c
  }

  /** `toLowerCase` on a string, character by character. */
  function Lower(s: string): (r: string)
    ensures |r| == |s|
    ensures forall i :: 0 <= i < |s| ==> r[i] == LowerChar(s[i])
  {
    if |s| == 0 then "" else [LowerChar(s[0])] + Lower(s[1..])
  }

  /** Lower-casing twice changes nothing more than lower-casing once. */
  lemma LowerIdempotent(s: string)
    ensures Lower(Lower(s)) == Lower(s)
  {
  }

  /** `hay.includes(needle)`: `needle` occurs in `hay` as a contiguous block. */
  predicate Contains(hay: string, needle: string)
    ensures Contains(hay, needle) ==> |needle| <= |hay|
    ensures |needle| == 0 ==> Contains(hay, needle)
  {
    needle <= hay || (|hay| > 0 && Contains(hay[1..], needle))
  }

  /** A copy of `needle` starts at position `i` of `hay`. */
  predicate OccursAt(hay: string, needle: string, i: int)
  {
    0 <= i <= |hay| - |needle| && hay[i..i + |needle|] == needle
  }

  /** `Contains` holds exactly when some position of `hay` starts a copy of `needle`. */
  lemma {:induction false} ContainsAt(hay: string, needle: string)
    ensures Contains(hay, needle) <==> exists i :: OccursAt(hay, needle, i)
  {
    if needle <= hay {
      assert OccursAt(hay, needle, 0);
    } else if |hay| == 0 {
    } else {
      ContainsAt(hay[1..], needle);
      if Contains(hay[1..], needle) {
        var i :| OccursAt(hay[1..], needle, i);
        assert hay[1..][i..i + |needle|] == hay[i + 1..i + 1 + |needle|];
        assert OccursAt(hay, needle, i + 1);
      }
      if exists i :: OccursAt(hay, needle, i) {
        var i :| OccursAt(hay, needle, i);
        if i > 0 {
          assert hay[1..][i - 1..i - 1 + |needle|] == hay[i..i + |needle|];
          assert OccursAt(hay[1..], needle, i - 1);
        }
      }
    }
  }

  /** The product's name or description contains the search text, ignoring case. */
  predicate MatchesSearch(p: Product, search: string)
    ensures search == "" ==> MatchesSearch(p, search)
    ensures MatchesSearch(p, search) ==> |search| <= |p.name| || |search| <= |p.description|
  {
    Contains(Lower(p.name), Lower(search)) || Contains(Lower(p.description), Lower(search))
  }

  /** The product's category is exactly `category`. */
  predicate MatchesCategory(p: Product, category: string)
  {
    p.category == category
  }

  /** Whether a product is listed for the query: an empty search or category
      string is absent (JavaScript treats it as false) and does not filter. */
  predicate Passes(p: Product, search: string, category: string)
  {
    (search == "" || MatchesSearch(p, search)) && (category == "" || MatchesCategory(p, category))
  }

  // ---------------------------------------------------------------------
  // Listing.

  /** The search filter, applied only when there is search text. */
  function SearchFiltered(ps: seq<Product>, search: string): (r: seq<Product>)
    ensures |r| <= |ps|
    ensures forall i :: 0 <= i < |r| ==> r[i] in ps && MatchesSearch(r[i], search)
    ensures forall i :: 0 <= i < |ps| && MatchesSearch(ps[i], search) ==> ps[i] in r
  {
    if search == "" then ps else Filter((p: Product) => MatchesSearch(p, search), ps)
  }

  /** The category filter, applied only when there is a category. */
  function CategoryFiltered(ps: seq<Product>, category: string): (r: seq<Product>)
    ensures |r| <= |ps|
    ensures forall i :: 0 <= i < |r| ==> r[i] in ps && (category == "" || MatchesCategory(r[i], category))
    ensures forall i :: 0 <= i < |ps| && (category == "" || MatchesCategory(ps[i], category)) ==> ps[i] in r
  {
    if category == "" then ps else Filter((p: Product) => MatchesCategory(p, category), ps)
  }

  /** The products the listing works on: search filter first, then category filter. */
  function Filtered(ps: seq<Product>, search: string, category: string): (r: seq<Product>)
    ensures |r| <= |ps|
    ensures forall i :: 0 <= i < |r| ==> Passes(r[i], search, category)
  {
    CategoryFiltered(SearchFiltered(ps, search), category)
  }

  /** Filtering is one pass with the conjunction of both tests. */
  lemma FilteredIsOnePass(ps: seq<Product>, search: string, category: string)
    ensures Filtered(ps, search, category) == Filter((p: Product) => Passes(p, search, category), ps)
  {
    var both := (p: Product) => Passes(p, search, category);
    var s := (p: Product) => MatchesSearch(p, search);
    var c := (p: Product) => MatchesCategory(p, category);
    if search == "" && category == "" {
      FilterKeepsAll(both, ps);
    } else if search == "" {
      FilterCongruent(c, both, ps);
    } else if category == "" {
      FilterCongruent(s, both, ps);
    } else {
      FilterFilter(s, c, both, ps);
    }
  }

  /** What the listing's filtered products and `total` mean: every listed
      product is a catalog product passing both filters, every such product
      is listed, catalog order is kept, and with unique ids the count is the
      number of catalog products that pass. */
  lemma FilteredSpec(ps: seq<Product>, search: string, category: string)
    ensures var r := Filtered(ps, search, category);
      && (forall i :: 0 <= i < |r| ==> r[i] in ps && Passes(r[i], search, category))
      && (forall i :: 0 <= i < |ps| && Passes(ps[i], search, category) ==> ps[i] in r)
      && IsSubsequence(r, ps)
  {
    var both := (p: Product) => Passes(p, search, category);
    FilteredIsOnePass(ps, search, category);
    FilterIsSubsequence(both, ps);
  }

  /** The listing's `total`: with unique ids, the number of catalog products
      that pass both filters. */
  lemma FilteredCount(ps: seq<Product>, search: string, category: string)
    requires UniqueIds(ps)
    ensures |Filtered(ps, search, category)| == |set p | p in ps && Passes(p, search, category)|
  {
    var both := (p: Product) => Passes(p, search, category);
    FilteredIsOnePass(ps, search, category);
    assert Distinct(ps) by {
      forall i, j | 0 <= i < j < |ps| ensures ps[i] != ps[j] {
        assert ps[i].id != ps[j].id;
      }
    }
    FilterCardinality(both, ps, set p | p in ps && Passes(p, search, category));
  }

  /** The search ignores case: searching for a text and for its lower-case
      form lists the same products. */
  lemma SearchIgnoresCase(ps: seq<Product>, search: string, category: string)
    ensures Filtered(ps, search, category) == Filtered(ps, Lower(search), category)
  {
    LowerIdempotent(search);
    FilteredIsOnePass(ps, search, category);
    FilteredIsOnePass(ps, Lower(search), category);
    FilterCongruent((p: Product) => Passes(p, search, category),
                    (p: Product) => Passes(p, Lower(search), category), ps);
  }

  /** The search also ignores the case of the product's name and description:
      lower-casing both fields does not change whether a text matches. */
  lemma MatchIgnoresProductCase(p: Product, search: string)
    ensures MatchesSearch(p, search) ==
            MatchesSearch(p.(name := Lower(p.name), description := Lower(p.description)), search)
  {
    LowerIdempotent(p.name);
    LowerIdempotent(p.description);
  }

  // ---------------------------------------------------------------------
  // Pagination.

  function Min(a: int, b: int): int
  {
    if a <= b then a else b
  }

  /** The index of the first item of page `page`, counted from 1. */
  function PageStart(page: int, limit: int): nat
    requires page >= 1 && limit >= 1
    decreases page
  {
    if page == 1 then 0 else PageStart(page - 1, limit) + limit
  }

  /** The first item of page `page` is at `(page - 1) * limit`. */
  lemma {:induction false} PageStartIsProduct(page: int, limit: int)
    requires page >= 1 && limit >= 1
    ensures PageStart(page, limit) == (page - 1) * limit
    decreases page
  {
    if page > 1 {
      PageStartIsProduct(page - 1, limit);
      assert (page - 1) * limit == (page - 2) * limit + limit;
    }
  }

  /** Page `page` (counted from 1) of `limit` items: `slice(start, start + limit)`
      clipped to the sequence, with `start = PageStart(page, limit)`. */
  function Page<T>(s: seq<T>, page: int, limit: int): (r: seq<T>)
    requires page >= 1 && limit >= 1
    ensures |r| <= limit
    ensures |r| == if PageStart(page, limit) >= |s| then 0 else Min(limit, |s| - PageStart(page, limit))
    ensures forall i :: 0 <= i < |r| ==> r[i] == s[PageStart(page, limit) + i]
  {
    var start := PageStart(page, limit);
    if start >= |s| then [] else s[start..Min(start + limit, |s|)]
  }

  /** How `Array.prototype.slice` reads an index into a sequence of length
      `n`: a negative index counts from the end; the result is clipped to `0..n`. */
  function SliceIndex(x: int, n: nat): (r: nat)
    ensures r <= n
  {
    if x < 0 then (if n + x < 0 then 0 else n + x) else if x > n then n else x
  }

  /** `s.slice(start, end)`: the items from the read start up to the read
      end, none when the end comes first. */
  function Slice<T>(s: seq<T>, start: int, end: int): (r: seq<T>)
    ensures |r| <= |s|
    ensures 0 <= start <= end <= |s| ==> r == s[start..end]
    ensures end <= start && (start < 0 <==> end < 0) ==> r == []
  {
    var b, e := SliceIndex(start, |s|), SliceIndex(end, |s|);
    if e <= b then [] else s[b..e]
  }

  /** Negative indices count from the end: while both stay within the
      length, slicing at them is slicing at their distances from the start. */
  lemma SliceFromEnd<T>(s: seq<T>, start: int, end: int)
    requires -|s| <= start < 0 && -|s| <= end < 0
    ensures Slice(s, start, end) == Slice(s, |s| + start, |s| + end)
  {
    assert SliceIndex(start, |s|) == |s| + start && SliceIndex(end, |s|) == |s| + end;
  }

  /** What the listing's slice gives for page numbers below 1: page 0 ends
      at index 0 and is always empty; a negative page `-m` counts from the end
      and lists the block of `limit` items that ends `m * limit` items before
      the end, clipped at the front of the list. */
  lemma PageBelowOne<T>(s: seq<T>, page: int, limit: int)
    requires page <= 0 && limit >= 1
    ensures var start := (page - 1) * limit;
            var end := start + limit;
            && (page == 0 ==> Slice(s, start, end) == [])
            && (page < 0 && 0 <= |s| + start ==> Slice(s, start, end) == s[|s| + start..|s| + end])
            && (page < 0 && |s| + start < 0 <= |s| + end ==> Slice(s, start, end) == s[..|s| + end])
            && (page < 0 && |s| + end < 0 ==> Slice(s, start, end) == [])
  {
    var start := (page - 1) * limit;
    var end := start + limit;
    assert end == page * limit;
    if page == 0 {
      assert start == -limit && end == 0;
    } else {
      assert page * limit <= -limit by {
        assert (-page) * limit >= limit;
      }
      assert start < end < 0;
      if 0 <= |s| + start {
        SliceFromEnd(s, start, end);
      }
    }
  }

  /** For page numbers from 1, the handler's slice is the page. */
  lemma SliceIsPage<T>(s: seq<T>, page: int, limit: int)
    requires page >= 1 && limit >= 1
    ensures Slice(s, (page - 1) * limit, (page - 1) * limit + limit) == Page(s, page, limit)
  {
    PageStartIsProduct(page, limit);
  }

  /** `Math.ceil(total / limit)`. */
  function TotalPages(total: nat, limit: int): (n: nat)
    requires limit >= 1
    ensures n * limit >= total
    ensures n == 0 || (n - 1) * limit < total
  {
    var q := (total + limit - 1) / limit;
    var r := (total + limit - 1) % limit;
    assert total + limit - 1 == q * limit + r && 0 <= r < limit;
    assert q >= 0;
    assert (q - 1) * limit == q * limit - limit;
    q
  }

  /** The last page holds the last item: page `TotalPages` starts before the
      end and the page after it starts at or past the end. */
  lemma TotalPagesBounds(total: nat, limit: int)
    requires limit >= 1
    ensures TotalPages(total, limit) >= 1 ==> PageStart(TotalPages(total, limit), limit) < total
    ensures PageStart(TotalPages(total, limit) + 1, limit) >= total
  {
    var n := TotalPages(total, limit);
    PageStartIsProduct(n + 1, limit);
    if n >= 1 {
      PageStartIsProduct(n, limit);
    }
  }

  /** Later pages start later, by at least a whole page. */
  lemma {:induction false} PageStartMonotone(p: int, q: int, limit: int)
    requires 1 <= p <= q && limit >= 1
    ensures PageStart(p, limit) <= PageStart(q, limit)
    ensures p < q ==> PageStart(p, limit) + limit <= PageStart(q, limit)
    decreases q
  {
    if p < q {
      PageStartMonotone(p, q - 1, limit);
    }
  }

  /** Pages 1 to `n`, one after the other. */
  function FirstPages<T>(s: seq<T>, limit: int, n: nat): seq<T>
    requires limit >= 1
  {
    if n == 0 then [] else FirstPages(s, limit, n - 1) + Page(s, n, limit)
  }

  /** Page `n` is the slice between the clipped starts of pages `n` and `n + 1`. */
  lemma PageIsSlice<T>(s: seq<T>, limit: int, n: int)
    requires limit >= 1 && n >= 1
    ensures Min(PageStart(n, limit), |s|) <= Min(PageStart(n + 1, limit), |s|)
    ensures Page(s, n, limit) == s[Min(PageStart(n, limit), |s|)..Min(PageStart(n + 1, limit), |s|)]
  {
    var start := PageStart(n, limit);
    assert PageStart(n + 1, limit) == start + limit;
    if start >= |s| {
      assert Page(s, n, limit) == [];
    }
  }

  /** The first `n` pages are the items before the start of page `n + 1`. */
  lemma {:induction false} FirstPagesArePrefix<T>(s: seq<T>, limit: int, n: nat)
    requires limit >= 1
    ensures FirstPages(s, limit, n) == s[..Min(PageStart(n + 1, limit), |s|)]
  {
    if n > 0 {
      FirstPagesArePrefix(s, limit, n - 1);
      PageIsSlice(s, limit, n);
      var before := Min(PageStart(n, limit), |s|);
      var after := Min(PageStart(n + 1, limit), |s|);
      assert FirstPages(s, limit, n - 1) == s[..before];
      assert FirstPages(s, limit, n) == s[..before] + s[before..after];
      SliceJoin(s, before, after);
    }
  }

  /** Pages 1 to `TotalPages` hold every item exactly once, in order. */
  lemma PagesCoverAll<T>(s: seq<T>, limit: int)
    requires limit >= 1
    ensures FirstPages(s, limit, TotalPages(|s|, limit)) == s
  {
    var n := TotalPages(|s|, limit);
    FirstPagesArePrefix(s, limit, n);
    TotalPagesBounds(|s|, limit);
    assert Min(PageStart(n + 1, limit), |s|) == |s|;
    assert s[..|s|] == s;
  }

  /** A page is non-empty exactly when its number is at most `TotalPages`. */
  lemma PageNonEmptyIff<T>(s: seq<T>, limit: int, page: int)
    requires limit >= 1 && page >= 1
    ensures Page(s, page, limit) != [] <==> page <= TotalPages(|s|, limit)
  {
    var n := TotalPages(|s|, limit);
    TotalPagesBounds(|s|, limit);
    if page <= n {
      PageStartMonotone(page, n, limit);
      assert PageStart(page, limit) < |s|;
      assert |Page(s, page, limit)| > 0;
    } else {
      PageStartMonotone(n + 1, page, limit);
      assert PageStart(page, limit) >= |s|;
    }
  }
}
