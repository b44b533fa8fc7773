/** `__merge_download_commands` of glitch/parsers/docker_parser.py, as a
    specification: each `wget` unit, in order, takes its old name as a `url`
    attribute, loses its name, and absorbs every gpg/checksum/md5sum unit
    that names the same file, each absorbed unit leaving a `<type>=true`
    flag on the download. */
module DownloadMerge {
  import opened Wrappers
  import opened Text
  import opened DockerIR
  import opened DockerParser

  const VerificationTypes: seq<string> := ["gpg", "checksum", "md5sum"]

  predicate IsVerification(a: AtomicUnit)
  {
    a.unitType in VerificationTypes
  }

  /** Neither a download nor a verification. */
  predicate IsOther(a: AtomicUnit)
  {
    !IsDownload(a) && !IsVerification(a)
  }

  /** The flag a verification unit leaves on the download it is merged into. */
  function Flag(u: AtomicUnit): Attribute
  {
    Attribute(u.unitType, Str("true"), false)
  }

  predicate IsVerificationFlag(a: Attribute)
  {
    a.name in VerificationTypes && a.value == Str("true") && !a.hasVariable
  }

  /** Whether the merge of a download of `file` removes `u`. */
  predicate Absorbed(u: AtomicUnit, file: Option<string>)
  {
    AtomicFileName(u.name) == file && IsVerification(u)
  }

  /** The units a merge for `file` leaves in place, in order. */
  function Kept(us: seq<AtomicUnit>, file: Option<string>): (r: seq<AtomicUnit>)
    ensures |r| <= |us|
  {
    if us == [] then []
    else Kept(us[..|us| - 1], file) + KeptSlot(Last(us), file)
  }

  function KeptSlot(u: AtomicUnit, file: Option<string>): seq<AtomicUnit>
  {
    if Absorbed(u, file) then [] else [u]
  }

  /** The flags a merge for `file` adds, one per removed unit, in order. */
  function Flags(us: seq<AtomicUnit>, file: Option<string>): seq<Attribute>
  {
    if us == [] then []
    else Flags(us[..|us| - 1], file) + FlagSlot(Last(us), file)
  }

  function FlagSlot(u: AtomicUnit, file: Option<string>): seq<Attribute>
  {
    if Absorbed(u, file) then [Flag(u)] else []
  }

  /** Every flag names a verification type and holds the string `true`. */
  lemma {:induction false} FlagsAreFlags(us: seq<AtomicUnit>, file: Option<string>, k: nat)
    requires k < |Flags(us, file)|
    ensures IsVerificationFlag(Flags(us, file)[k])
  {
    if k < |Flags(us[..|us| - 1], file)| {
      FlagsAreFlags(us[..|us| - 1], file, k);
    }
  }

  /** Kept and Flags one unit further. */
  lemma KeptFlagsSnoc(us: seq<AtomicUnit>, k: nat, file: Option<string>)
    requires k < |us|
    ensures Kept(us[..k + 1], file) == Kept(us[..k], file) + (if Absorbed(us[k], file) then [] else [us[k]])
    ensures Flags(us[..k + 1], file) == Flags(us[..k], file) + (if Absorbed(us[k], file) then [Flag(us[k])] else [])
  {
    assert us[..k + 1][..k] == us[..k];
  }

  /** Each unit is either kept or turned into a flag. */
  lemma {:induction false} KeptFlagsCount(us: seq<AtomicUnit>, file: Option<string>)
    ensures |Kept(us, file)| + |Flags(us, file)| == |us|
  {
    if us != [] {
      KeptFlagsCount(us[..|us| - 1], file);
    }
  }

  function KeptOf(file: Option<string>): AtomicUnit -> seq<AtomicUnit>
  {
    u => KeptSlot(u, file)
  }

  /** `Kept` is a fold of `KeptSlot`. */
  lemma {:induction false} KeptFlat(us: seq<AtomicUnit>, file: Option<string>)
    ensures Kept(us, file) == FlatMap(KeptOf(file), us)
  {
    if us != [] {
      KeptFlat(us[..|us| - 1], file);
    }
  }

  lemma KeptConcat(a: seq<AtomicUnit>, b: seq<AtomicUnit>, file: Option<string>)
    ensures Kept(a + b, file) == Kept(a, file) + Kept(b, file)
  {
    KeptFlat(a + b, file);
    KeptFlat(a, file);
    KeptFlat(b, file);
    FlatMapConcat(KeptOf(file), a, b);
  }

  function FlagsOf(file: Option<string>): AtomicUnit -> seq<Attribute>
  {
    u => FlagSlot(u, file)
  }

  /** `Flags` is a fold of `FlagSlot`. */
  lemma {:induction false} FlagsFlat(us: seq<AtomicUnit>, file: Option<string>)
    ensures Flags(us, file) == FlatMap(FlagsOf(file), us)
  {
    if us != [] {
      FlagsFlat(us[..|us| - 1], file);
    }
  }

  lemma FlagsConcat(a: seq<AtomicUnit>, b: seq<AtomicUnit>, file: Option<string>)
    ensures Flags(a + b, file) == Flags(a, file) + Flags(b, file)
  {
    FlagsFlat(a + b, file);
    FlagsFlat(a, file);
    FlagsFlat(b, file);
    FlatMapConcat(FlagsOf(file), a, b);
  }

  /** Units a merge never removes (downloads, and units of other types) keep
      their relative order. */
  lemma {:induction false} KeptPreserves(p: AtomicUnit -> bool, us: seq<AtomicUnit>, file: Option<string>)
    requires forall u :: p(u) ==> !IsVerification(u)
    ensures Filter(p, Kept(us, file)) == Filter(p, us)
  {
    if us != [] {
      var front := us[..|us| - 1];
      KeptPreserves(p, front, file);
      FilterConcat(p, Kept(front, file), if Absorbed(Last(us), file) then [] else [Last(us)]);
      assert [Last(us)][..0] == [];
    }
  }

  // ---------------------------------------------------------------------------
  // One download at a time
  // ---------------------------------------------------------------------------

  function Downloads(us: seq<AtomicUnit>): seq<AtomicUnit>
  {
    Filter(IsDownload, us)
  }

  /** The position of the `j`-th download unit. */
  function NthDownloadPos(us: seq<AtomicUnit>, j: nat): (p: nat)
    requires j < |Downloads(us)|
    ensures p < |us| && IsDownload(us[p]) && |Downloads(us[..p])| == j && us[p] == Downloads(us)[j]
    decreases |us|
  {
    var front := us[..|us| - 1];
    if IsDownload(Last(us)) && j == |Downloads(us)| - 1 then
      assert us[..|us| - 1] == front;
      |us| - 1
    else
      var p := NthDownloadPos(front, j);
      assert us[..p] == front[..p];
      p
  }

  /** The download at `p` once merged: no name, then the `url` attribute,
      then a flag per verification unit of the same file. */
  function MergedUnit(us: seq<AtomicUnit>, p: nat): AtomicUnit
    requires p < |us|
  {
    var d := us[p];
    d.(name := "", attributes := d.attributes + [Attribute("url", Str(d.name), false)] + Flags(us, AtomicFileName(d.name)))
  }

  /** The units after merging the download at `p`. */
  function MergeOne(us: seq<AtomicUnit>, p: nat): seq<AtomicUnit>
    requires p < |us|
  {
    var file := AtomicFileName(us[p].name);
    Kept(us[..p], file) + [MergedUnit(us, p)] + Kept(us[p + 1..], file)
  }

  /** A download after its merge, against the download before. */
  predicate MergedDownload(d: AtomicUnit, d': AtomicUnit)
  {
    d'.name == "" && d'.unitType == d.unitType && d'.line == d.line &&
    |d'.attributes| > |d.attributes| &&
    d'.attributes[..|d.attributes| + 1] == d.attributes + [Attribute("url", Str(d.name), false)] &&
    forall k :: |d.attributes| < k < |d'.attributes| ==> IsVerificationFlag(d'.attributes[k])
  }

  /** The sum of the attribute counts of some units. */
  function AttrTotal(us: seq<AtomicUnit>): nat
  {
    if us == [] then 0 else AttrTotal(us[..|us| - 1]) + |Last(us).attributes|
  }

  lemma {:induction false} AttrTotalUpdate(us: seq<AtomicUnit>, q: nat, x: AtomicUnit)
    requires q < |us|
    ensures AttrTotal(us[q := x]) == AttrTotal(us) - |us[q].attributes| + |x.attributes|
  {
    if q < |us| - 1 {
      assert us[q := x][..|us| - 1] == us[..|us| - 1][q := x];
      AttrTotalUpdate(us[..|us| - 1], q, x);
    } else {
      assert us[q := x][..|us| - 1] == us[..|us| - 1];
    }
  }

  /** Filtering around one element. */
  lemma FilterAround(p: AtomicUnit -> bool, a: seq<AtomicUnit>, x: AtomicUnit, b: seq<AtomicUnit>)
    ensures Filter(p, a + [x] + b) == Filter(p, a) + (if p(x) then [x] else []) + Filter(p, b)
  {
    FilterConcat(p, a + [x], b);
    FilterConcat(p, a, [x]);
    assert [x][..0] == [];
  }

  /** A download is never absorbed, so merging around it keeps it. */
  lemma KeptAround(a: seq<AtomicUnit>, d: AtomicUnit, b: seq<AtomicUnit>, file: Option<string>)
    requires IsDownload(d)
    ensures Kept(a + [d] + b, file) == Kept(a, file) + [d] + Kept(b, file)
  {
    KeptConcat(a, [d], file);
    KeptOne(d, file);
    assert Kept(a + [d], file) == Kept(a, file) + [d];
    KeptConcat(a + [d], b, file);
  }

  lemma KeptOne(u: AtomicUnit, file: Option<string>)
    ensures Kept([u], file) == KeptSlot(u, file)
  {
    assert [u][..0] == [];
  }

  /** A download is never absorbed, so it adds no flag. */
  lemma FlagsAround(a: seq<AtomicUnit>, d: AtomicUnit, b: seq<AtomicUnit>, file: Option<string>)
    requires IsDownload(d)
    ensures Flags(a + [d] + b, file) == Flags(a, file) + Flags(b, file)
  {
    assert [d][..0] == [];
    assert !Absorbed(d, file);
    assert Flags([d], file) == [];
    FlagsConcat(a, [d], file);
    assert Flags(a + [d], file) == Flags(a, file);
    FlagsConcat(a + [d], b, file);
  }

  /** Replacing the download `d` by the download `d'` and dropping absorbed
      units around it: the downloads change at that one place, the other
      units not at all. */
  lemma ReplaceAround(a: seq<AtomicUnit>, d: AtomicUnit, d': AtomicUnit, b: seq<AtomicUnit>, file: Option<string>)
    requires IsDownload(d) && IsDownload(d')
    ensures var x, y := Downloads(a), Downloads(b);
            Downloads(a + [d] + b) == x + [d] + y &&
            Downloads(Kept(a, file) + [d'] + Kept(b, file)) == x + [d'] + y
    ensures Filter(IsOther, Kept(a, file) + [d'] + Kept(b, file)) == Filter(IsOther, a + [d] + b)
  {
    FilterAround(IsDownload, a, d, b);
    KeptPreserves(IsDownload, a, file);
    KeptPreserves(IsDownload, b, file);
    FilterAround(IsDownload, Kept(a, file), d', Kept(b, file));
    FilterAround(IsOther, a, d, b);
    KeptPreserves(IsOther, a, file);
    KeptPreserves(IsOther, b, file);
    FilterAround(IsOther, Kept(a, file), d', Kept(b, file));
  }

  /** Merging one download rewrites that download in place among the
      downloads, and leaves the units of other types alone. */
  lemma MergeOneDownloads(us: seq<AtomicUnit>, p: nat)
    requires p < |us| && IsDownload(us[p])
    ensures |Downloads(us[..p])| < |Downloads(us)|
    ensures Filter(IsOther, MergeOne(us, p)) == Filter(IsOther, us)
    ensures Downloads(MergeOne(us, p)) == Downloads(us)[|Downloads(us[..p])| := MergedUnit(us, p)]
  {
    SplitAt(us, p);
    var d' := MergedUnit(us, p);
    ReplaceAround(us[..p], us[p], d', us[p + 1..], AtomicFileName(us[p].name));
    UpdateMiddle(Downloads(us[..p]), us[p], d', Downloads(us[p + 1..]));
  }

  /** Merging one download removes exactly the units that became flags. */
  lemma MergeOneCount(us: seq<AtomicUnit>, p: nat)
    requires p < |us| && IsDownload(us[p])
    ensures |MergeOne(us, p)| + |Flags(us, AtomicFileName(us[p].name))| == |us|
  {
    var file := AtomicFileName(us[p].name);
    var a, b := us[..p], us[p + 1..];
    assert us == a + [us[p]] + b;
    KeptAround(a, us[p], b, file);
    FlagsAround(a, us[p], b, file);
    KeptFlagsCount(a, file);
    KeptFlagsCount(b, file);
  }

  /** The merged download: no name, old attributes, `url`, then flags only. */
  lemma MergedUnitSpec(us: seq<AtomicUnit>, p: nat)
    requires p < |us|
    ensures MergedDownload(us[p], MergedUnit(us, p))
    ensures |MergedUnit(us, p).attributes| == |us[p].attributes| + 1 + |Flags(us, AtomicFileName(us[p].name))|
  {
    var d, d' := us[p], MergedUnit(us, p);
    var fl := Flags(us, AtomicFileName(d.name));
    var pre := d.attributes + [Attribute("url", Str(d.name), false)];
    assert d'.attributes == pre + fl;
    assert d'.attributes[..|d.attributes| + 1] == pre;
    forall k | |d.attributes| < k < |d'.attributes|
      ensures IsVerificationFlag(d'.attributes[k])
    {
      assert d'.attributes[k] == fl[k - |pre|];
      FlagsAreFlags(us, AtomicFileName(d.name), k - |pre|);
    }
  }

  /** The loop over the downloads from the `j`-th on: each is merged in
      turn, in the units the earlier merges left. */
  function MergeFrom(units: seq<AtomicUnit>, j: nat): seq<AtomicUnit>
    requires j <= |Downloads(units)|
    decreases |Downloads(units)| - j
  {
    if j == |Downloads(units)| then units
    else
      var p := NthDownloadPos(units, j);
      MergeOneDownloads(units, p);
      MergeFrom(MergeOne(units, p), j + 1)
  }

  /** The units after every download has been merged. */
  function Merged(us: seq<AtomicUnit>): seq<AtomicUnit>
  {
    MergeFrom(us, 0)
  }

  /** The first `j` downloads are merged, the others untouched. */
  predicate MergedPrefix(ds: seq<AtomicUnit>, ds': seq<AtomicUnit>, j: nat)
  {
    |ds'| == |ds| && j <= |ds| &&
    (forall k :: 0 <= k < j ==> MergedDownload(ds[k], ds'[k])) &&
    (forall k :: j <= k < |ds| ==> ds'[k] == ds[k])
  }

  lemma MergedPrefixStep(ds: seq<AtomicUnit>, ds': seq<AtomicUnit>, j: nat, d': AtomicUnit)
    requires MergedPrefix(ds, ds', j) && j < |ds| && MergedDownload(ds'[j], d')
    ensures MergedPrefix(ds, ds'[j := d'], j + 1)
  {
    assert ds'[j] == ds[j];
  }

  /** Once the first `j` of the original downloads `ds` are merged, the
      remaining merges rewrite the others, each in its place. */
  lemma {:induction false} MergeFromDownloads(ds: seq<AtomicUnit>, units: seq<AtomicUnit>, j: nat)
    requires j <= |Downloads(units)| && MergedPrefix(ds, Downloads(units), j)
    ensures MergedPrefix(ds, Downloads(MergeFrom(units, j)), |ds|)
    decreases |Downloads(units)| - j
  {
    if j < |Downloads(units)| {
      var p := NthDownloadPos(units, j);
      var d' := MergedUnit(units, p);
      MergeOneDownloads(units, p);
      MergedUnitSpec(units, p);
      MergedPrefixStep(ds, Downloads(units), j, d');
      MergeFromDownloads(ds, MergeOne(units, p), j + 1);
    }
  }

  /** The merges leave the units that are neither downloads nor
      verifications exactly as they were. */
  lemma {:induction false} MergeFromOthers(units: seq<AtomicUnit>, j: nat)
    requires j <= |Downloads(units)|
    ensures Filter(IsOther, MergeFrom(units, j)) == Filter(IsOther, units)
    decreases |Downloads(units)| - j
  {
    if j < |Downloads(units)| {
      var p := NthDownloadPos(units, j);
      MergeOneDownloads(units, p);
      MergeFromOthers(MergeOne(units, p), j + 1);
    }
  }

  /** Each merge from the `j`-th on adds a `url` attribute and turns each
      unit it removes into one flag. */
  lemma {:induction false} MergeFromAttrs(units: seq<AtomicUnit>, j: nat)
    requires j <= |Downloads(units)|
    ensures var r := MergeFrom(units, j);
            AttrTotal(Downloads(r)) + |r| == AttrTotal(Downloads(units)) + (|Downloads(units)| - j) + |units|
    decreases |Downloads(units)| - j
  {
    if j < |Downloads(units)| {
      var p := NthDownloadPos(units, j);
      MergeOneDownloads(units, p);
      MergeOneAttrs(units, j);
      MergeFromAttrs(MergeOne(units, p), j + 1);
    }
  }

  /** Merging the `j`-th download adds a `url` attribute and one flag per
      unit it removes. */
  lemma MergeOneAttrs(us: seq<AtomicUnit>, j: nat)
    requires j < |Downloads(us)|
    ensures var p := NthDownloadPos(us, j);
            AttrTotal(Downloads(MergeOne(us, p))) + |MergeOne(us, p)| == AttrTotal(Downloads(us)) + 1 + |us|
  {
    var p := NthDownloadPos(us, j);
    var d, d' := us[p], MergedUnit(us, p);
    var flags := |Flags(us, AtomicFileName(d.name))|;
    MergeOneDownloads(us, p);
    MergeOneCount(us, p);
    MergedUnitSpec(us, p);
    assert |d'.attributes| == |d.attributes| + 1 + flags;
    AttrTotalUpdate(Downloads(us), j, d');
  }

  /** The units after the first `j` turns of the merge loop. */
  function MergeUpTo(us: seq<AtomicUnit>, j: nat): (r: seq<AtomicUnit>)
    requires j <= |Downloads(us)|
    ensures |Downloads(r)| == |Downloads(us)|
  {
    if j == 0 then us
    else
      var u := MergeUpTo(us, j - 1);
      var p := NthDownloadPos(u, j - 1);
      MergeOneDownloads(u, p);
      MergeOne(u, p)
  }

  /** The turns from the `j`-th on finish what the first `j` began. */
  lemma {:induction false} MergeFromUpTo(us: seq<AtomicUnit>, j: nat)
    requires j <= |Downloads(us)|
    ensures MergeFrom(MergeUpTo(us, j), j) == Merged(us)
  {
    if j > 0 {
      MergeFromUpTo(us, j - 1);
    }
  }

  /** `ds'` agrees with `ds` below `j`. */
  predicate AgreeBelow(ds: seq<AtomicUnit>, ds': seq<AtomicUnit>, j: nat)
  {
    |ds'| == |ds| && forall k :: 0 <= k < j && k < |ds| ==> ds'[k] == ds[k]
  }

  lemma AgreeBelowStep(ds: seq<AtomicUnit>, ds': seq<AtomicUnit>, j: nat, i: nat, x: AtomicUnit)
    requires AgreeBelow(ds, ds', j) && j <= i < |ds'|
    ensures AgreeBelow(ds, ds'[i := x], j)
  {
  }

  /** The first `j` turns leave the later downloads alone. */
  lemma {:induction false} MergeUpToKeepsLater(us: seq<AtomicUnit>, j: nat, k: nat)
    requires j <= k < |Downloads(us)|
    ensures Downloads(MergeUpTo(us, j))[k] == Downloads(us)[k]
  {
    if j > 0 {
      var u := MergeUpTo(us, j - 1);
      MergeOneDownloads(u, NthDownloadPos(u, j - 1));
      MergeUpToKeepsLater(us, j - 1, k);
    }
  }

  /** The whole merge is its `|Downloads(us)|` turns. */
  lemma MergedUpTo(us: seq<AtomicUnit>)
    ensures Merged(us) == MergeUpTo(us, |Downloads(us)|)
  {
    MergeFromUpTo(us, |Downloads(us)|);
  }

  /** Turn `j` merges the `j`-th download. */
  lemma MergedOwnTurn(us: seq<AtomicUnit>, j: nat)
    requires j < |Downloads(us)|
    ensures var u := MergeUpTo(us, j);
            Downloads(MergeUpTo(us, j + 1))[j] == MergedUnit(u, NthDownloadPos(u, j))
  {
    var u := MergeUpTo(us, j);
    MergeOneDownloads(u, NthDownloadPos(u, j));
  }

  /** Turns from the `m`-th on leave the first `m` downloads alone. */
  lemma {:induction false} MergeUpToKeepsEarlier(us: seq<AtomicUnit>, m: nat, n: nat)
    requires m <= n <= |Downloads(us)|
    ensures AgreeBelow(Downloads(MergeUpTo(us, m)), Downloads(MergeUpTo(us, n)), m)
  {
    if m < n {
      var u := MergeUpTo(us, n - 1);
      var p := NthDownloadPos(u, n - 1);
      MergeUpToKeepsEarlier(us, m, n - 1);
      MergeOneDownloads(u, p);
      AgreeBelowStep(Downloads(MergeUpTo(us, m)), Downloads(u), m, n - 1, MergedUnit(u, p));
    }
  }

  /** The `j`-th download after the whole merge: no name, its old
      attributes, its `url`, then one flag per verification unit of its own
      file among the units the first `j` turns left. */
  lemma MergedEach(us: seq<AtomicUnit>, j: nat)
    requires j < |Downloads(us)|
    ensures |Downloads(Merged(us))| == |Downloads(us)|
    ensures var d := Downloads(us)[j];
            Downloads(Merged(us))[j] ==
              d.(name := "", attributes := d.attributes + [Attribute("url", Str(d.name), false)] +
                                           Flags(MergeUpTo(us, j), AtomicFileName(d.name)))
  {
    var u := MergeUpTo(us, j);
    MergedUpTo(us);
    MergedOwnTurn(us, j);
    MergeUpToKeepsEarlier(us, j + 1, |Downloads(us)|);
    MergeUpToKeepsLater(us, j, j);
    assert u[NthDownloadPos(u, j)] == Downloads(us)[j];
  }

  /** The merge adds no unit; it removes only verification units, each
      becoming one flag attribute on a download; every download ends with an
      empty name and its old name as `url`, followed by the flags of the
      verification units of its own file that were still there at its turn. */
  lemma MergedSpec(us: seq<AtomicUnit>)
    ensures MergedPrefix(Downloads(us), Downloads(Merged(us)), |Downloads(us)|)
    ensures forall j :: 0 <= j < |Downloads(us)| ==>
              Downloads(Merged(us))[j].attributes ==
                Downloads(us)[j].attributes + [Attribute("url", Str(Downloads(us)[j].name), false)] +
                Flags(MergeUpTo(us, j), AtomicFileName(Downloads(us)[j].name))
    ensures Filter(IsOther, Merged(us)) == Filter(IsOther, us)
    ensures |Merged(us)| <= |us|
    ensures AttrTotal(Downloads(Merged(us))) ==
            AttrTotal(Downloads(us)) + |Downloads(us)| + (|us| - |Merged(us)|)
  {
    var ds, ds' := Downloads(us), Downloads(Merged(us));
    MergeFromDownloads(ds, us, 0);
    MergeFromOthers(us, 0);
    MergeFromAttrs(us, 0);
    AttrTotalGrows(ds, ds');
    forall j | 0 <= j < |ds|
      ensures ds'[j].attributes ==
                ds[j].attributes + [Attribute("url", Str(ds[j].name), false)] + Flags(MergeUpTo(us, j), AtomicFileName(ds[j].name))
    {
      MergedEach(us, j);
    }
  }

  /** Each merged download gained at least its `url` attribute. */
  lemma {:induction false} AttrTotalGrows(ds: seq<AtomicUnit>, ds': seq<AtomicUnit>)
    requires MergedPrefix(ds, ds', |ds|)
    ensures AttrTotal(ds') >= AttrTotal(ds) + |ds|
  {
    if ds != [] {
      var n := |ds| - 1;
      assert MergedDownload(ds[n], ds'[n]);
      assert MergedPrefix(ds[..n], ds'[..n], n);
      AttrTotalGrows(ds[..n], ds'[..n]);
    }
  }
}
