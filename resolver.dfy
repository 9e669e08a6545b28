/** Image resolution for one case in one variant folder (load_image): the exact file name first,
    then the first listed file with the same case number, then a grey placeholder. */
module Resolver {
  import opened Filenames
  import opened Catalog

  /** What load_image hands to the page, named by the file it opens. */
  datatype Image =
    | Exact(name: string)
    | Matched(name: string)
    | Placeholder(width: nat, height: nat, rgb: (nat, nat, nat))

  /** The 300 by 300 light grey box shown when nothing matches. */
  const Blank: Image := Placeholder(300, 300, (220, 220, 220))

  /** Extensions accepted by the case-number fallback (no .bmp, no .tiff). */
  const MatchExtensions: seq<string> := [".png", ".jpg", ".jpeg"]

  predicate IsNumberMatch(f: string, target: nat) {
    ExtractNumber(f) == target && HasExtension(f, MatchExtensions)
  }

  /** Position of the first listed file that the fallback accepts, or |listing| when none does. */
  function FirstNumberMatch(listing: seq<string>, target: nat): (i: nat)
    ensures i <= |listing|
    ensures forall k :: 0 <= k < i ==> !IsNumberMatch(listing[k], target)
    ensures i < |listing| ==> IsNumberMatch(listing[i], target)
  {
    if listing == [] then 0
    else if IsNumberMatch(listing[0], target) then 0
    else 1 + FirstNumberMatch(listing[1..], target)
  }

  /** A position before which nothing matches, and which matches or ends the listing, is the first match. */
  lemma FirstNumberMatchAt(listing: seq<string>, target: nat, k: nat)
    requires k <= |listing|
    requires forall m :: 0 <= m < k ==> !IsNumberMatch(listing[m], target)
    requires k < |listing| ==> IsNumberMatch(listing[k], target)
    ensures FirstNumberMatch(listing, target) == k
  {
  }

  /** The image load_image(filename, ...) shows for a folder. */
  function Resolve(filename: string, folder: Folder): (img: Image)
    ensures img.Exact? <==> folder.present && filename in folder.listing
    ensures img.Exact? ==> img.name == filename
    ensures img.Matched? ==>
      && folder.present && img.name in folder.listing
      && IsNumberMatch(img.name, ExtractNumber(filename))
    ensures img.Matched? ==>
      forall k :: 0 <= k < |folder.listing| && IsNumberMatch(folder.listing[k], ExtractNumber(filename)) ==>
        img.name in folder.listing[..k + 1]
    ensures img.Placeholder? <==>
      && !(folder.present && filename in folder.listing)
      && (!folder.present || forall f :: f in folder.listing ==> !IsNumberMatch(f, ExtractNumber(filename)))
    ensures img.Placeholder? ==> img == Blank
  {
    if folder.present && filename in folder.listing then
      Exact(filename)
    else if !folder.present then
      Blank
    else
      var i := FirstNumberMatch(folder.listing, ExtractNumber(filename));
      if i < |folder.listing| then Matched(folder.listing[i]) else Blank
  }

  /** load_image: the exact name, else a scan of the folder that stops at the first match. */
  method LoadImage(filename: string, folder: Folder) returns (img: Image)
    ensures img == Resolve(filename, folder)
  {
    if folder.present && filename in folder.listing {
      return Exact(filename);
    }
    var target := ExtractNumber(filename);
    if folder.present {
      var k := 0;
      while k < |folder.listing|
        invariant 0 <= k <= |folder.listing|
        invariant forall m :: 0 <= m < k ==> !IsNumberMatch(folder.listing[m], target)
      {
        var f := folder.listing[k];
        if ExtractNumber(f) == target && HasExtension(f, MatchExtensions) {
          FirstNumberMatchAt(folder.listing, target, k);
          return Matched(f);
        }
        k := k + 1;
      }
      FirstNumberMatchAt(folder.listing, target, |folder.listing|);
    }
    return Blank;
  }

  /** A .bmp or .tiff file is never picked by the case-number fallback. */
  lemma BmpAndTiffNeverMatched(f: string, target: nat)
    requires EndsWith(Lower(f), ".bmp") || EndsWith(Lower(f), ".tiff")
    ensures !IsNumberMatch(f, target)
  {
    var l := Lower(f);
    EndsWithLast(l, ".bmp");
    EndsWithLast(l, ".tiff");
    assert l[|l| - 1] != 'g';
    forall k | 0 <= k < |MatchExtensions| ensures !EndsWith(l, MatchExtensions[k]) {
      var e := MatchExtensions[k];
      assert e[|e| - 1] == 'g';
      EndsWithLast(l, e);
    }
  }

  /** Every catalogue file resolves to itself in the Original folder it was listed from. */
  lemma CatalogFileResolvesExactly(original: Folder, f: string)
    requires f in GetImageFiles(original)
    ensures Resolve(f, original) == Exact(f)
  {
    assert multiset(GetImageFiles(original))[f] > 0;
  }
}
