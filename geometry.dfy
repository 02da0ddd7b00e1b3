/**
 * The converter's view of the source pyramid: which "ResolutionLevel N"
 * groups exist, the corrected destination shape and the chunk shape of each
 * level, and the small normalisations applied to the image metadata
 * (ims_to_omezarr_fast.py).
 */
module Geometry {
  import opened Wrappers
  import opened Text
  import opened Blocks

  /** A shape or chunk shape in (depth, height, width) order. */
  datatype Zyx = Zyx(z: int, y: int, x: int)

  /**
   * One pyramid level: its index, the stored (possibly padded) source shape,
   * the destination shape clipped to the expected pyramid size, and the chunk
   * shape of the destination array.
   */
  datatype LevelInfo = LevelInfo(level: int, srcShape: Zyx, dstShape: Zyx, chunk: Zyx)

  datatype GeometryError = NoResolutionLevels | MissingLevelGroup(level: int)

  function Pow2(k: nat): (r: nat)
    ensures r >= 1
  {
    if k == 0 then 1 else 2 * Pow2(k - 1)
  }

  /**
   * max(1, ceil(size / 2**lvl)): the unpadded size of an axis at level lvl.
   * A negative lvl (a key such as "ResolutionLevel -1") makes 2**lvl a
   * fraction in Python, so the quotient is size * 2**(-lvl).
   */
  function ExpectedSize(size: int, lvl: int): (r: int)
    ensures r >= 1
    ensures lvl >= 0 && size <= 1 ==> r == 1
  {
    if lvl >= 0 then Max(1, CeilDiv(size, Pow2(lvl))) else Max(1, size * Pow2(-lvl))
  }

  /**
   * For level lvl >= 0 the expected size of a non-empty axis is the number of
   * 2**lvl-voxel blocks needed to cover it; for a negative lvl it is the size
   * scaled up by 2**(-lvl).
   */
  lemma ExpectedSizeIsCeil(size: int, lvl: int)
    ensures lvl >= 0 && size >= 1 ==>
      var r := ExpectedSize(size, lvl);
      (r - 1) * Pow2(lvl) < size <= r * Pow2(lvl)
    ensures lvl < 0 ==> ExpectedSize(size, lvl) == Max(1, size * Pow2(-lvl))
  {
    if lvl >= 0 && size >= 1 {
      CeilDivBounds(size, Pow2(lvl));
    }
  }

  /** The destination size of one axis: the stored size, never more than the expected size. */
  function ClipAxis(stored: int, size: int, lvl: int): (d: int)
    ensures d <= stored && d <= ExpectedSize(size, lvl)
    ensures d == stored || d == ExpectedSize(size, lvl)
    ensures stored > ExpectedSize(size, lvl) ==> d == ExpectedSize(size, lvl)
    ensures stored >= 1 ==> d >= 1
  {
    Min(stored, ExpectedSize(size, lvl))
  }

  /** The chunk size of one axis: the requested size, never more than the array. */
  function ChunkAxis(requested: int, dst: int): (c: int)
    ensures c <= requested && c <= dst
    ensures c == requested || c == dst
    ensures requested >= 1 && dst >= 1 ==> c >= 1
  {
    Min(requested, dst)
  }

  /** The group key the converter builds for a level: f"ResolutionLevel {lvl}". */
  function LevelKey(lvl: int): string {
    "ResolutionLevel " + IntToString(lvl)
  }

  /** The level a DataSet child key names, if it starts with "ResolutionLevel " and its last token is an int. */
  function ParseLevelKey(key: string): (r: Option<int>)
    ensures r.Some? ==> StartsWith(key, "ResolutionLevel ")
  {
    if StartsWith(key, "ResolutionLevel ") then ParseInt(LastToken(key)) else None
  }

  /** The level info of one level (lines 120-146 of the converter). */
  function LevelInfoFor(lvl: int, stored: Zyx, size: Zyx, chunk: Zyx): (info: LevelInfo)
    ensures info.level == lvl && info.srcShape == stored
  {
    var dst := Zyx(ClipAxis(stored.z, size.z, lvl), ClipAxis(stored.y, size.y, lvl), ClipAxis(stored.x, size.x, lvl));
    LevelInfo(lvl, stored, dst,
              Zyx(ChunkAxis(chunk.z, dst.z), ChunkAxis(chunk.y, dst.y), ChunkAxis(chunk.x, dst.x)))
  }

  /** The level descriptor invariant: dst <= src and 1 <= chunk <= dst on every axis. */
  predicate ValidInfo(info: LevelInfo) {
    && 1 <= info.chunk.z <= info.dstShape.z <= info.srcShape.z
    && 1 <= info.chunk.y <= info.dstShape.y <= info.srcShape.y
    && 1 <= info.chunk.x <= info.dstShape.x <= info.srcShape.x
  }

  predicate Positive(v: Zyx) { v.z >= 1 && v.y >= 1 && v.x >= 1 }

  /** Every level built from a non-empty stored array and a positive requested chunk is valid. */
  lemma LevelInfoValid(lvl: int, stored: Zyx, size: Zyx, chunk: Zyx)
    requires Positive(stored) && Positive(chunk)
    ensures ValidInfo(LevelInfoFor(lvl, stored, size, chunk))
    ensures var info := LevelInfoFor(lvl, stored, size, chunk);
      info.dstShape == Zyx(Min(stored.z, ExpectedSize(size.z, lvl)), Min(stored.y, ExpectedSize(size.y, lvl)), Min(stored.x, ExpectedSize(size.x, lvl)))
  {
  }

  /** The text after the last space of a key is its trailing space-free part. */
  lemma {:induction false} LastTokenAfterSpace(p: string, s: string)
    requires |p| > 0 && p[|p| - 1] == ' ' && ' ' !in s
    ensures LastToken(p + s) == s
    decreases |s|
  {
    if s == [] {
      assert p + s == p;
    } else {
      var t := s[..|s| - 1];
      LastTokenAfterSpace(p, t);
      assert (p + s)[..|p + s| - 1] == p + t;
    }
  }

  /** The key the converter builds for a level parses back to that level. */
  lemma LevelKeyRoundTrip(lvl: int)
    ensures ParseLevelKey(LevelKey(lvl)) == Some(lvl)
  {
    var key := LevelKey(lvl);
    assert key[..|"ResolutionLevel "|] == "ResolutionLevel ";
    IntToStringChars(lvl);
    LastTokenAfterSpace("ResolutionLevel ", IntToString(lvl));
    ParseIntRoundTrip(lvl);
  }

  /** The values of the Some entries, in order. */
  function Somes(opts: seq<Option<int>>): seq<int> {
    if opts == [] then []
    else Somes(opts[..|opts| - 1]) + (if opts[|opts| - 1].Some? then [opts[|opts| - 1].value] else [])
  }

  /** The levels parsed from the keys, in key order (the list _sorted_resolution_levels builds before sorting). */
  function ParsedLevels(keys: seq<string>): seq<int> {
    Somes(seq(|keys|, i requires 0 <= i < |keys| => ParseLevelKey(keys[i])))
  }

  lemma {:induction false} SomesIn(opts: seq<Option<int>>, v: int)
    ensures v in Somes(opts) <==> exists i :: 0 <= i < |opts| && opts[i] == Some(v)
    decreases |opts|
  {
    if opts != [] {
      var init := opts[..|opts| - 1];
      SomesIn(init, v);
      assert forall i :: 0 <= i < |init| ==> init[i] == opts[i];
    }
  }

  /** A level is parsed exactly when some key names it. */
  lemma ParsedLevelsMembers(keys: seq<string>, v: int)
    ensures v in ParsedLevels(keys) <==> exists i :: 0 <= i < |keys| && ParseLevelKey(keys[i]) == Some(v)
  {
    var opts := seq(|keys|, i requires 0 <= i < |keys| => ParseLevelKey(keys[i]));
    SomesIn(opts, v);
    if v in ParsedLevels(keys) {
      var i :| 0 <= i < |opts| && opts[i] == Some(v);
      assert ParseLevelKey(keys[i]) == Some(v);
    }
    if exists i :: 0 <= i < |keys| && ParseLevelKey(keys[i]) == Some(v) {
      var i :| 0 <= i < |keys| && ParseLevelKey(keys[i]) == Some(v);
      assert opts[i] == Some(v);
    }
  }

  predicate Sorted(s: seq<int>) {
    forall i, j :: 0 <= i < j < |s| ==> s[i] <= s[j]
  }

  /** Inserts x into a sorted list after every element not greater than it. */
  method InsertSorted(r: seq<int>, x: int) returns (t: seq<int>)
    requires Sorted(r)
    ensures Sorted(t) && multiset(t) == multiset(r) + multiset{x}
  {
    var j := 0;
    while j < |r| && r[j] <= x
      invariant 0 <= j <= |r|
      invariant forall k :: 0 <= k < j ==> r[k] <= x
    {
      j := j + 1;
    }
    t := r[..j] + [x] + r[j..];
    InsertAt(r, x, j);
  }

  /** Putting x between the elements not greater than it and the rest keeps a list sorted and adds one x. */
  lemma InsertAt(r: seq<int>, x: int, j: int)
    requires Sorted(r) && 0 <= j <= |r|
    requires forall k :: 0 <= k < j ==> r[k] <= x
    requires j < |r| ==> x < r[j]
    ensures Sorted(r[..j] + [x] + r[j..])
    ensures multiset(r[..j] + [x] + r[j..]) == multiset(r) + multiset{x}
  {
    InsertionAddsOne(r, x, j);
    var t := r[..j] + [x] + r[j..];
    assert forall k :: 0 <= k < j ==> t[k] == r[k];
    assert forall k :: j < k < |t| ==> t[k] == r[k - 1];
    forall a, b | 0 <= a < b < |t| ensures t[a] <= t[b] {
      InsertedOrder(r, x, j, t, a, b);
    }
  }

  lemma InsertionAddsOne(r: seq<int>, x: int, j: int)
    requires 0 <= j <= |r|
    ensures multiset(r[..j] + [x] + r[j..]) == multiset(r) + multiset{x}
  {
    assert r == r[..j] + r[j..];
  }

  lemma InsertedOrder(r: seq<int>, x: int, j: int, t: seq<int>, a: int, b: int)
    requires Sorted(r) && 0 <= j <= |r| && |t| == |r| + 1
    requires forall k :: 0 <= k < j ==> r[k] <= x
    requires j < |r| ==> x < r[j]
    requires t[j] == x
    requires forall k :: 0 <= k < j ==> t[k] == r[k]
    requires forall k :: j < k < |t| ==> t[k] == r[k - 1]
    requires 0 <= a < b < |t|
    ensures t[a] <= t[b]
  {
    if b < j {
      assert t[a] == r[a] && t[b] == r[b];
    } else if a > j {
      assert t[a] == r[a - 1] && t[b] == r[b - 1];
    } else if a == j {
      assert t[b] == r[b - 1];
    } else if b == j {
      assert t[a] == r[a];
    } else {
      assert t[a] == r[a] && t[b] == r[b - 1];
    }
  }

  /** Python's sorted() on a list of ints, by insertion into a sorted prefix. */
  method SortInts(s: seq<int>) returns (r: seq<int>)
    ensures Sorted(r) && multiset(r) == multiset(s)
  {
    r := [];
    for i := 0 to |s|
      invariant Sorted(r) && multiset(r) == multiset(s[..i])
    {
      r := InsertSorted(r, s[i]);
      assert s[..i + 1] == s[..i] + [s[i]];
    }
    assert s[..|s|] == s;
  }

  /**
   * _sorted_resolution_levels: the ints N of the keys "ResolutionLevel ... N",
   * ascending, with repeats kept; every other key is ignored.
   */
  method SortedResolutionLevels(keys: seq<string>) returns (levels: seq<int>)
    ensures Sorted(levels)
    ensures multiset(levels) == multiset(ParsedLevels(keys))
    ensures forall v :: v in levels <==> exists i :: 0 <= i < |keys| && ParseLevelKey(keys[i]) == Some(v)
  {
    ghost var opts := seq(|keys|, i requires 0 <= i < |keys| => ParseLevelKey(keys[i]));
    var found: seq<int> := [];
    for i := 0 to |keys|
      invariant found == Somes(opts[..i])
    {
      assert opts[..i + 1][..i] == opts[..i];
      match ParseLevelKey(keys[i]) {
        case Some(v) => found := found + [v];
        case None =>
      }
    }
    assert opts[..|keys|] == opts;
    levels := SortInts(found);
    forall v ensures v in levels <==> exists i :: 0 <= i < |keys| && ParseLevelKey(keys[i]) == Some(v) {
      assert v in levels <==> v in multiset(levels);
      assert v in found <==> v in multiset(found);
      ParsedLevelsMembers(keys, v);
    }
  }

  /** Every level in the list has its "ResolutionLevel N" group among the DataSet children. */
  predicate AllGroupsPresent(levels: seq<int>, shapes: map<string, Zyx>) {
    forall i :: 0 <= i < |levels| ==> LevelKey(levels[i]) in shapes
  }

  /** The level indices of a list of level infos, in order. */
  function LevelsOf(infos: seq<LevelInfo>): (ls: seq<int>)
    ensures |ls| == |infos| && forall i :: 0 <= i < |infos| ==> ls[i] == infos[i].level
  {
    if infos == [] then [] else [infos[0].level] + LevelsOf(infos[1..])
  }

  lemma SameElements(a: seq<int>, b: seq<int>)
    requires multiset(a) == multiset(b)
    ensures |a| == |b|
    ensures forall v :: v in a <==> v in b
  {
    assert |a| == |multiset(a)|;
    forall v ensures v in a <==> v in b {
      assert v in a <==> v in multiset(a);
      assert v in b <==> v in multiset(b);
    }
  }

  /**
   * The loop of _build_level_infos over the sorted levels: the level info of
   * each level in turn, or the first level whose group is missing.
   */
  /** `infos` holds one descriptor per level, each built from that level's group. */
  predicate BuiltFromGroups(infos: seq<LevelInfo>, levels: seq<int>, shapes: map<string, Zyx>, size: Zyx, chunk: Zyx) {
    && |infos| == |levels|
    && AllGroupsPresent(levels, shapes)
    && forall k :: 0 <= k < |levels| ==>
         infos[k] == LevelInfoFor(levels[k], shapes[LevelKey(levels[k])], size, chunk)
  }

  lemma BuiltFromGroupsStep(infos: seq<LevelInfo>, levels: seq<int>, i: nat, shapes: map<string, Zyx>, size: Zyx, chunk: Zyx)
    requires i < |levels| && LevelKey(levels[i]) in shapes
    requires BuiltFromGroups(infos, levels[..i], shapes, size, chunk)
    ensures BuiltFromGroups(infos + [LevelInfoFor(levels[i], shapes[LevelKey(levels[i])], size, chunk)], levels[..i + 1], shapes, size, chunk)
  {
    assert levels[..i + 1] == levels[..i] + [levels[i]];
  }

  method InfosForLevels(levels: seq<int>, shapes: map<string, Zyx>,
                        size: Zyx, chunk: Zyx)
    returns (r: Result<seq<LevelInfo>, GeometryError>)
    ensures r.Ok? <==> AllGroupsPresent(levels, shapes)
    ensures r.Err? ==> r.error.MissingLevelGroup? && r.error.level in levels && LevelKey(r.error.level) !in shapes
    ensures r.Ok? ==> LevelsOf(r.value) == levels
    ensures r.Ok? ==> forall i :: 0 <= i < |r.value| ==>
      r.value[i] == LevelInfoFor(levels[i], shapes[LevelKey(levels[i])], size, chunk)
  {
    var infos: seq<LevelInfo> := [];
    for i := 0 to |levels|
      invariant BuiltFromGroups(infos, levels[..i], shapes, size, chunk)
    {
      var key := LevelKey(levels[i]);
      if key !in shapes {
        return Err(MissingLevelGroup(levels[i]));
      }
      BuiltFromGroupsStep(infos, levels, i, shapes, size, chunk);
      infos := infos + [LevelInfoFor(levels[i], shapes[key], size, chunk)];
    }
    assert levels[..|levels|] == levels;
    assert LevelsOf(infos) == levels;
    return Ok(infos);
  }

  /**
   * The geometry part of _build_level_infos. `keys` lists the children of the
   * DataSet group and `shapes` gives the stored Data shape of each child;
   * `size` holds the full-resolution voxel counts read from the image
   * attributes. Fails when no level is found, or when the group built from a
   * parsed level (f"ResolutionLevel {lvl}") is not a child (KeyError).
   */
  method BuildLevelInfos(keys: seq<string>, shapes: map<string, Zyx>,
                         size: Zyx, chunk: Zyx)
    returns (r: Result<seq<LevelInfo>, GeometryError>)
    ensures r == Err(NoResolutionLevels) <==> ParsedLevels(keys) == []
    ensures r.Err? && r.error.MissingLevelGroup? ==>
      r.error.level in ParsedLevels(keys) && LevelKey(r.error.level) !in shapes
    ensures r.Ok? <==> ParsedLevels(keys) != [] && AllGroupsPresent(ParsedLevels(keys), shapes)
    ensures r.Ok? ==> |r.value| > 0 && Sorted(LevelsOf(r.value))
    ensures r.Ok? ==> multiset(LevelsOf(r.value)) == multiset(ParsedLevels(keys))
    ensures r.Ok? ==> forall i :: 0 <= i < |r.value| ==>
      LevelKey(r.value[i].level) in shapes &&
      r.value[i] == LevelInfoFor(r.value[i].level, shapes[LevelKey(r.value[i].level)], size, chunk)
  {
    var levels := SortedResolutionLevels(keys);
    ghost var parsed := ParsedLevels(keys);
    SameElements(levels, parsed);
    if |levels| == 0 {
      return Err(NoResolutionLevels);
    }
    assert AllGroupsPresent(levels, shapes) <==> AllGroupsPresent(parsed, shapes) by {
      if AllGroupsPresent(levels, shapes) {
        forall j | 0 <= j < |parsed| ensures LevelKey(parsed[j]) in shapes {
          assert parsed[j] in parsed;
        }
      }
      if AllGroupsPresent(parsed, shapes) {
        forall j | 0 <= j < |levels| ensures LevelKey(levels[j]) in shapes {
          assert levels[j] in levels;
        }
      }
    }
    r := InfosForLevels(levels, shapes, size, chunk);
  }

  /** Equal levels carry equal descriptors (repeated levels are possible, e.g. keys "ResolutionLevel 1" and "ResolutionLevel 01"). */
  predicate LevelDetermined(infos: seq<LevelInfo>) {
    forall i, j :: 0 <= i < |infos| && 0 <= j < |infos| && infos[i].level == infos[j].level ==> infos[i] == infos[j]
  }

  /**
   * Each descriptor BuildLevelInfos returns is a function of its level alone,
   * so a level the keys name twice gets two identical descriptors.
   */
  lemma BuiltInfosLevelDetermined(infos: seq<LevelInfo>, shapes: map<string, Zyx>, size: Zyx, chunk: Zyx)
    requires forall i :: 0 <= i < |infos| ==>
      LevelKey(infos[i].level) in shapes &&
      infos[i] == LevelInfoFor(infos[i].level, shapes[LevelKey(infos[i].level)], size, chunk)
    ensures LevelDetermined(infos)
  {
  }

  /** The alias table applied to a stripped, lower-cased unit string. */
  function UnitAlias(raw: string): (unit: string)
    ensures unit != []
    ensures raw == "um" || raw == "?m" || raw == "" ==> unit == "micrometer"
    ensures raw != "um" && raw != "?m" && raw != "" ==> unit == raw
  {
    if raw == "um" || raw == "?m" then "micrometer"
    else if raw != "" then raw
    else "micrometer"
  }

  /**
   * The unit string written to the axes metadata: the Unit attribute
   * (default "micrometer"), stripped and lower-cased, with "um", "?m" and the
   * empty string mapped to "micrometer".
   */
  function NormalizeUnit(unitAttr: Option<string>): (unit: string)
    ensures unit != []
    ensures var raw := Lower(Strip(unitAttr.GetOr("micrometer")));
      raw == "um" || raw == "?m" || raw == "" ==> unit == "micrometer"
    ensures var raw := Lower(Strip(unitAttr.GetOr("micrometer")));
      raw != "um" && raw != "?m" && raw != "" ==> unit == raw
  {
    UnitAlias(Lower(Strip(unitAttr.GetOr("micrometer"))))
  }

  /**
   * The channel label: the stripped Name attribute of the "Channel 0" group
   * (default "0"), or "0" when that group is missing or the name is blank.
   */
  function ChannelName(channelGroupPresent: bool, nameAttr: Option<string>): (name: string)
    ensures name != [] && !IsSpace(name[0]) && !IsSpace(name[|name| - 1])
    ensures channelGroupPresent && Strip(nameAttr.GetOr("0")) != "" ==> name == Strip(nameAttr.GetOr("0"))
    ensures !channelGroupPresent || Strip(nameAttr.GetOr("0")) == "" ==> name == "0"
  {
    if !channelGroupPresent then "0"
    else
      var stripped := Strip(nameAttr.GetOr("0"));
      if stripped == "" then "0" else stripped
  }

  lemma StripStripped(s: string)
    requires s == [] || (!IsSpace(s[0]) && !IsSpace(s[|s| - 1]))
    ensures Strip(s) == s
  {
  }

  lemma LowerKeepsSpaces(s: string)
    ensures forall i :: 0 <= i < |s| ==> (IsSpace(Lower(s)[i]) <==> IsSpace(s[i]))
  {
  }

  /** Lower-casing a string without upper-case ASCII letters changes nothing. */
  lemma {:induction false} LowerNoUpper(s: string)
    requires forall i :: 0 <= i < |s| ==> !('A' <= s[i] <= 'Z')
    ensures Lower(s) == s
    decreases |s|
  {
    if s != [] { LowerNoUpper(s[1..]); }
  }

  lemma LowerIdempotent(s: string)
    ensures Lower(Lower(s)) == Lower(s)
  {
    LowerNoUpper(Lower(s));
  }

  /** A stripped, lower-cased string is its own canonical form. */
  lemma Canonical(s: string)
    ensures Lower(Strip(Lower(Strip(s)))) == Lower(Strip(s))
  {
    var stripped := Strip(s);
    LowerKeepsSpaces(stripped);
    StripStripped(Lower(stripped));
    LowerIdempotent(stripped);
  }

  lemma MicrometerCanonical()
    ensures Lower(Strip("micrometer")) == "micrometer"
  {
    NoSpaceStrips("micrometer");
    LowerNoUpper("micrometer");
  }

  /** Normalising a normalised unit changes nothing. */
  lemma NormalizeUnitIdempotent(unitAttr: Option<string>)
    ensures NormalizeUnit(Some(NormalizeUnit(unitAttr))) == NormalizeUnit(unitAttr)
  {
    var raw := Lower(Strip(unitAttr.GetOr("micrometer")));
    if UnitAlias(raw) == "micrometer" {
      MicrometerCanonical();
    } else {
      Canonical(unitAttr.GetOr("micrometer"));
    }
  }

  /** The compressors the converter can attach to every level array. */
  datatype Shuffle = BitShuffle
  datatype Compressor = Blosc(cname: string, clevel: int, shuffle: Shuffle)

  /** --compression lz4 or zstd selects Blosc with that codec and the given level; anything else, none. */
  function ChooseCompressor(compression: string, clevel: int): (c: Option<Compressor>)
    ensures c.Some? <==> compression == "lz4" || compression == "zstd"
    ensures c.Some? ==> c.value.cname == compression && c.value.clevel == clevel && c.value.shuffle == BitShuffle
  {
    if compression == "lz4" then Some(Blosc("lz4", clevel, BitShuffle))
    else if compression == "zstd" then Some(Blosc("zstd", clevel, BitShuffle))
    else None
  }
}
