/** The case catalogue: the image files of the Original folder, ordered by case number. */
module Catalog {
  import opened Filenames

  /** A folder as the survey sees it: whether it exists, and the names it lists in directory order. */
  datatype Folder = Folder(present: bool, listing: seq<string>)

  predicate IsUpper(c: char) {
    'A' <= c <= 'Z'
  }

  /** ASCII lower-casing of one character: a capital becomes the small letter at the same
      position of the alphabet, and every other character is left alone. */
  function LowerChar(c: char): (l: char)
    ensures !IsUpper(l)
    ensures IsUpper(c) ==> 'a' <= l <= 'z' && l as int - 'a' as int == c as int - 'A' as int
    ensures !IsUpper(c) ==> l == c
  {
    if IsUpper(c) then (c as int + 32) as char else c
  }

  /** str.lower() on ASCII: no capital is left, and every character that is not a capital stays put. */
  function Lower(s: string): (l: string)
    ensures |l| == |s|
    ensures forall k :: 0 <= k < |l| ==> !IsUpper(l[k])
    ensures forall k :: 0 <= k < |s| && !IsUpper(s[k]) ==> l[k] == s[k]
    ensures forall k :: 0 <= k < |s| && IsUpper(s[k]) ==> l[k] as int - 'a' as int == s[k] as int - 'A' as int
  {
    seq(|s|, k requires 0 <= k < |s| => LowerChar(s[k]))
  }

  predicate EndsWith(s: string, suffix: string) {
    |suffix| <= |s| && s[|s| - |suffix|..] == suffix
  }

  lemma EndsWithLast(s: string, suffix: string)
    ensures EndsWith(s, suffix) && |suffix| > 0 ==> s[|s| - 1] == suffix[|suffix| - 1]
  {
  }

  /** name.lower().endswith(extensions) */
  predicate HasExtension(name: string, extensions: seq<string>) {
    exists k :: 0 <= k < |extensions| && EndsWith(Lower(name), extensions[k])
  }

  /** Extensions that make a file of the Original folder a case. */
  const CatalogExtensions: seq<string> := [".png", ".jpg", ".jpeg", ".bmp", ".tiff"]

  predicate IsImageFile(name: string) {
    HasExtension(name, CatalogExtensions)
  }

  /** The list comprehension that keeps the image files of a listing, in listing order. */
  function ImageFiles(listing: seq<string>): seq<string> {
    if listing == [] then []
    else (if IsImageFile(listing[0]) then [listing[0]] else []) + ImageFiles(listing[1..])
  }

  /** Every image file of the listing is kept as often as it is listed, and nothing else is kept. */
  lemma {:induction false} ImageFilesCount(listing: seq<string>)
    ensures forall f :: multiset(ImageFiles(listing))[f] == if IsImageFile(f) then multiset(listing)[f] else 0
  {
    if listing != [] {
      assert listing == [listing[0]] + listing[1..];
      ImageFilesCount(listing[1..]);
    }
  }

  /** Two pieces of which one is empty can trade places. */
  lemma SwapAroundEmpty(p: seq<string>, q: seq<string>, r: seq<string>)
    requires p == [] || q == []
    ensures p + (q + r) == q + (p + r)
  {
    if p == [] {
      assert p + (q + r) == q + r && p + r == r;
    } else {
      assert q + r == r && q + (p + r) == p + r;
    }
  }

  /** Filtering a concatenation filters each part in turn: the filter keeps listing order. */
  lemma {:induction false} ImageFilesAppend(a: seq<string>, b: seq<string>)
    ensures ImageFiles(a + b) == ImageFiles(a) + ImageFiles(b)
  {
    if a != [] {
      var head := if IsImageFile(a[0]) then [a[0]] else [];
      assert (a + b)[0] == a[0] && (a + b)[1..] == a[1..] + b;
      calc {
        ImageFiles(a + b);
        head + ImageFiles(a[1..] + b);
        { ImageFilesAppend(a[1..], b); }
        head + (ImageFiles(a[1..]) + ImageFiles(b));
        ImageFiles(a) + ImageFiles(b);
      }
    } else {
      assert a + b == b;
    }
  }

  /** Files ordered non-decreasingly by case number. */
  predicate SortedByNumber(s: seq<string>) {
    forall p, q :: 0 <= p < q < |s| ==> ExtractNumber(s[p]) <= ExtractNumber(s[q])
  }

  /** The files of s with case number n, in the order s has them. */
  function WithNumber(s: seq<string>, n: nat): seq<string> {
    if s == [] then []
    else (if ExtractNumber(s[0]) == n then [s[0]] else []) + WithNumber(s[1..], n)
  }

  /** Puts x in front of the first element of s whose case number is not smaller. */
  function Insert(x: string, s: seq<string>): (r: seq<string>)
    ensures multiset(r) == multiset(s) + multiset{x}
  {
    if s == [] then [x]
    else if ExtractNumber(x) <= ExtractNumber(s[0]) then [x] + s
    else
      assert s == [s[0]] + s[1..];
      [s[0]] + Insert(x, s[1..])
  }

  /** Insertion adds x and nothing else. */
  lemma {:induction false} InsertMembers(x: string, s: seq<string>)
    ensures forall y :: y in Insert(x, s) ==> y == x || y in s
  {
    if s != [] && ExtractNumber(x) > ExtractNumber(s[0]) {
      InsertMembers(x, s[1..]);
    }
  }

  /** A sorted list stays sorted under a head that no element undercuts. */
  lemma SortedCons(h: string, t: seq<string>)
    requires SortedByNumber(t)
    requires forall y :: y in t ==> ExtractNumber(h) <= ExtractNumber(y)
    ensures SortedByNumber([h] + t)
  {
  }

  lemma {:induction false} InsertSorted(x: string, s: seq<string>)
    requires SortedByNumber(s)
    ensures SortedByNumber(Insert(x, s))
  {
    if s != [] && ExtractNumber(x) > ExtractNumber(s[0]) {
      assert SortedByNumber(s[1..]);
      InsertSorted(x, s[1..]);
      InsertMembers(x, s[1..]);
      forall y | y in Insert(x, s[1..]) ensures ExtractNumber(s[0]) <= ExtractNumber(y) {
        if y != x {
          var m :| 0 <= m < |s[1..]| && s[1..][m] == y;
          assert s[m + 1] == y;
        }
      }
      SortedCons(s[0], Insert(x, s[1..]));
    }
  }

  /** The files with case number n of a list that starts with h. */
  lemma WithNumberCons(h: string, t: seq<string>, n: nat)
    ensures WithNumber([h] + t, n) == (if ExtractNumber(h) == n then [h] else []) + WithNumber(t, n)
  {
    assert ([h] + t)[0] == h && ([h] + t)[1..] == t;
  }

  /** A single file is kept exactly when it has case number n. */
  lemma WithNumberSingle(x: string, n: nat)
    ensures WithNumber([x], n) == if ExtractNumber(x) == n then [x] else []
  {
    WithNumberCons(x, [], n);
    assert [x] + [] == [x];
  }

  /** A name with a larger case number than the head goes after it. */
  lemma InsertPast(x: string, s: seq<string>)
    requires s != [] && ExtractNumber(x) > ExtractNumber(s[0])
    ensures Insert(x, s) == [s[0]] + Insert(x, s[1..])
  {
  }

  /** Insertion past s[0]: the files of case number n of s[0] and of the rest keep their order. */
  lemma InsertWithNumberStep(x: string, s: seq<string>, n: nat)
    requires s != [] && ExtractNumber(x) > ExtractNumber(s[0])
    requires WithNumber(Insert(x, s[1..]), n) == WithNumber([x], n) + WithNumber(s[1..], n)
    ensures WithNumber(Insert(x, s), n) == WithNumber([x], n) + WithNumber(s, n)
  {
    var own := WithNumber([x], n);
    var first := if ExtractNumber(s[0]) == n then [s[0]] else [];
    var rest := WithNumber(s[1..], n);
    WithNumberSingle(x, n);
    InsertPast(x, s);
    WithNumberCons(s[0], Insert(x, s[1..]), n);
    assert WithNumber(s, n) == first + rest by {
      assert s == [s[0]] + s[1..];
      WithNumberCons(s[0], s[1..], n);
    }
    // x and s[0] have different case numbers, so at most one of them is kept
    SwapAroundEmpty(first, own, rest);
  }

  /** Insertion in front of equal case numbers keeps the files of every case number in order. */
  lemma {:induction false} InsertWithNumber(x: string, s: seq<string>, n: nat)
    requires SortedByNumber(s)
    ensures WithNumber(Insert(x, s), n) == WithNumber([x], n) + WithNumber(s, n)
  {
    if s == [] {
      assert [x] == [x] + [];
      assert Insert(x, s) == [x];
    } else if ExtractNumber(x) <= ExtractNumber(s[0]) {
      assert Insert(x, s) == [x] + s;
      WithNumberCons(x, s, n);
      WithNumberSingle(x, n);
    } else {
      InsertWithNumber(x, s[1..], n);
      InsertWithNumberStep(x, s, n);
    }
  }

  /** Stable insertion sort by case number: the model of list.sort(key=extract_number). */
  function SortByNumber(s: seq<string>): (r: seq<string>)
    ensures multiset(r) == multiset(s)
    ensures SortedByNumber(r)
  {
    if s == [] then []
    else
      assert s == [s[0]] + s[1..];
      InsertSorted(s[0], SortByNumber(s[1..]));
      Insert(s[0], SortByNumber(s[1..]))
  }

  /** The sort is stable: files that share a case number keep their relative order. */
  lemma {:induction false} SortByNumberStable(s: seq<string>, n: nat)
    ensures WithNumber(SortByNumber(s), n) == WithNumber(s, n)
  {
    if s != [] {
      SortByNumberStable(s[1..], n);
      InsertWithNumber(s[0], SortByNumber(s[1..]), n);
    }
  }

  /** get_image_files over a given Original folder. */
  function GetImageFiles(original: Folder): (files: seq<string>)
    ensures !original.present ==> files == []
    ensures forall f :: multiset(files)[f] == if original.present && IsImageFile(f) then multiset(original.listing)[f] else 0
    ensures SortedByNumber(files)
  {
    if !original.present then []
    else
      ImageFilesCount(original.listing);
      SortByNumber(ImageFiles(original.listing))
  }

  /** Among catalogue files with the same case number, the listing order survives. */
  lemma GetImageFilesStable(original: Folder, n: nat)
    requires original.present
    ensures WithNumber(GetImageFiles(original), n) == WithNumber(ImageFiles(original.listing), n)
  {
    SortByNumberStable(ImageFiles(original.listing), n);
  }
}
