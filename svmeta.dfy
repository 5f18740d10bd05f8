/**
 * The svmeta record: the version/freshness block a tracked file carries,
 * its strict semantic-version parser, the newer/older comparator and the
 * removal of the block before hashing (scw/svmeta.py).
 *
 * A block is found line by line: a begin marker line, the key/value lines,
 * an end marker line. Both markers start with `#` or `"`.
 */
module Svmeta {
  import opened Wrappers
  import opened Strings
  import Maps

  type Semver = (int, int, int)

  datatype SvMeta = SvMeta(
    file: string,
    kind: string,
    moduleName: string,
    version: string,
    buildId: string,
    epoch: int,
    parentBuild: string,
    hash: string,
    sig: string)

  const DefaultVersion := "0.0.0"
  const DefaultBuildId := "00000000-000000Z"

  /** `SvMeta()`: every field at its declared default. */
  function Default(): SvMeta {
    SvMeta("", "", "", DefaultVersion, DefaultBuildId, 0, "", "", "")
  }

  /** The one exception `from_text` lets escape: `int()` on a non-integer `sv_epoch`. */
  datatype ParseError = EpochNotInteger(text: string)

  // ---------------------------------------------------------------- semver

  /** `parse_semver`: the first three components as integers, or (0, 0, 0). */
  function ParseSemver(v: string): Semver
  {
    var parts := Split(Strip(v), '.');
    if |parts| >= 3 && ParseInt(parts[0]).Some? && ParseInt(parts[1]).Some? && ParseInt(parts[2]).Some?
    then (ParseInt(parts[0]).value, ParseInt(parts[1]).value, ParseInt(parts[2]).value)
    else (0, 0, 0)
  }

  lemma DigitsHaveNoDot(a: string)
    requires IsDigits(a)
    ensures '.' !in a && !IsSpace(a[0]) && !IsSpace(a[|a| - 1])
  {
    assert IsDigit(a[0]) && IsDigit(a[|a| - 1]);
    assert forall i :: 0 <= i < |a| ==> a[i] != '.';
  }

  /** The first three parts of `a.b.c` followed by more `.`-parts are a, b and c. */
  lemma SplitThree(a: string, b: string, c: string, rest: string)
    requires '.' !in a && '.' !in b && '.' !in c
    requires rest == [] || rest[0] == '.'
    ensures var p := Split(a + "." + b + "." + c + rest, '.'); |p| >= 3 && p[0] == a && p[1] == b && p[2] == c
  {
    var tail := c + rest;
    assert a + "." + b + "." + c + rest == a + ['.'] + (b + ['.'] + tail);
    SplitAfterFirst(a, b + ['.'] + tail, '.');
    SplitAfterFirst(b, tail, '.');
    var q := Split(tail, '.');
    if rest == [] {
      assert tail == c;
      SplitNoSeparator(c, '.');
    } else {
      assert tail == c + ['.'] + rest[1..];
      SplitAfterFirst(c, rest[1..], '.');
    }
    assert q[0] == c;
  }

  /**
   * `a.b.c` with digit components parses to exactly (a, b, c), whatever
   * `.`-separated components follow.
   */
  lemma ParseSemverExact(a: string, b: string, c: string, rest: string)
    requires IsDigits(a) && IsDigits(b) && IsDigits(c)
    requires rest == [] || (rest[0] == '.' && !IsSpace(rest[|rest| - 1]))
    ensures ParseSemver(a + "." + b + "." + c + rest) == (DigitsValue(a), DigitsValue(b), DigitsValue(c))
  {
    DigitsHaveNoDot(a);
    DigitsHaveNoDot(b);
    DigitsHaveNoDot(c);
    var s := a + "." + b + "." + c + rest;
    assert s[0] == a[0];
    assert s[|s| - 1] == if rest == [] then c[|c| - 1] else rest[|rest| - 1];
    assert Strip(s) == s;
    SplitThree(a, b, c, rest);
  }

  /** Two components are too few: the result is (0, 0, 0), so "4.0" is not 4.0.0. */
  lemma ParseSemverTwoComponents(a: string, b: string)
    requires '.' !in a && '.' !in b
    requires a != [] && !IsSpace(a[0])
    requires b != [] && !IsSpace(b[|b| - 1])
    ensures ParseSemver(a + "." + b) == (0, 0, 0)
  {
    var s := a + "." + b;
    assert s[0] == a[0] && s[|s| - 1] == b[|b| - 1];
    assert Strip(s) == s;
    SplitAfterFirst(a, b, '.');
    SplitNoSeparator(b, '.');
    assert s == a + ['.'] + b;
  }

  /** A first, second or third component that is not an integer makes the whole version (0, 0, 0). */
  lemma ParseSemverBadComponent(v: string, i: nat)
    requires i < 3 && i < |Split(Strip(v), '.')| && ParseInt(Split(Strip(v), '.')[i]).None?
    ensures ParseSemver(v) == (0, 0, 0)
  {
    var parts := Split(Strip(v), '.');
    if i == 0 {
      assert ParseInt(parts[0]).None?;
    } else if i == 1 {
      assert ParseInt(parts[1]).None?;
    } else {
      assert ParseInt(parts[2]).None?;
    }
  }

  lemma ParseSemverFourDotZero()
    ensures ParseSemver("4.0") == (0, 0, 0)
  {
    ParseSemverTwoComponents("4", "0");
    assert "4" + "." + "0" == "4.0";
  }

  // ---------------------------------------------------------------- block

  const BeginTitle := "stegverse file metadata"
  const EndTitle := "end stegverse file metadata"

  /**
   * A marker line: `#` or `"` first, then `===`, the title in any case and
   * `===`, with whitespace allowed between the parts and at the end.
   */
  predicate IsMarker(line: string, title: string) {
    && |line| > 0
    && (line[0] == '#' || line[0] == '"')
    && var t := Strip(line[1..]);
    && |t| >= 6
    && t[..3] == "==="
    && t[|t| - 3..] == "==="
    && Lower(Strip(t[3..|t| - 3])) == title
  }

  /** The first line at or after `from` that is a marker with `title`. */
  function FindMarker(lines: seq<string>, from: nat, title: string): (r: Option<nat>)
    ensures r.Some? ==> from <= r.value < |lines| && IsMarker(lines[r.value], title)
    ensures forall k :: from <= k < |lines| && (r.None? || k < r.value) ==> !IsMarker(lines[k], title)
    decreases |lines| - from
  {
    if from >= |lines| then None
    else if IsMarker(lines[from], title) then Some(from)
    else FindMarker(lines, from + 1, title)
  }

  /**
   * The leftmost block: the first begin marker and the first end marker after
   * it, as line indices. No end marker after the first begin marker means no
   * block anywhere.
   */
  function FindBlock(lines: seq<string>): (r: Option<(nat, nat)>)
    ensures r.Some? ==> r.value.0 < r.value.1 < |lines|
  {
    match FindMarker(lines, 0, BeginTitle)
    case None => None
    case Some(b) =>
      match FindMarker(lines, b + 1, EndTitle)
      case None => None
      case Some(e) => Some((b, e))
  }

  /**
   * The block found is the leftmost one: its begin line is the first begin
   * marker, its end line the first end marker after it, and there is none
   * exactly when no begin marker line is followed by an end marker line.
   */
  lemma FindBlockLeftmost(lines: seq<string>)
    ensures FindBlock(lines).Some? ==> var (b, e) := FindBlock(lines).value;
      && IsMarker(lines[b], BeginTitle) && IsMarker(lines[e], EndTitle)
      && (forall k :: 0 <= k < b ==> !IsMarker(lines[k], BeginTitle))
      && (forall k :: b < k < e ==> !IsMarker(lines[k], EndTitle))
    ensures FindBlock(lines).None? <==>
      forall b, e :: 0 <= b < e < |lines| && IsMarker(lines[b], BeginTitle) ==> !IsMarker(lines[e], EndTitle)
  {
    var begin := FindMarker(lines, 0, BeginTitle);
    if begin.None? {
      assert FindBlock(lines) == None;
    } else {
      var b: nat := begin.value;
      var end := FindMarker(lines, b + 1, EndTitle);
      if end.None? {
        assert FindBlock(lines) == None;
        forall b', e' | 0 <= b' < e' < |lines| && IsMarker(lines[b'], BeginTitle)
          ensures !IsMarker(lines[e'], EndTitle)
        {
          assert b <= b';
        }
      } else {
        var e: nat := end.value;
        assert FindBlock(lines) == Some((b, e));
        assert IsMarker(lines[b], BeginTitle) && IsMarker(lines[e], EndTitle);
      }
    }
  }

  predicate IsKeyChar(c: char) {
    'a' <= c <= 'z' || 'A' <= c <= 'Z' || IsDigit(c) || c == '_'
  }

  /** The length of the run of key characters that `s` starts with. */
  function KeyLength(s: string): (n: nat)
    ensures n <= |s|
  {
    if s != [] && IsKeyChar(s[0]) then 1 + KeyLength(s[1..]) else 0
  }

  /**
   * One key/value line: a key of key characters starting with `sv_` in any
   * case, optional whitespace, `:`, then the value. The key comes back
   * lower-cased, the value without surrounding whitespace.
   */
  function ParseKeyValue(line: string): Option<(string, string)>
  {
    var t := TrimLeft(line);
    var n := KeyLength(t);
    var rest := TrimLeft(t[n..]);
    if n >= 4 && Lower(t[..3]) == "sv_" && rest != [] && rest[0] == ':'
    then Some((Lower(t[..n]), Strip(rest[1..])))
    else None
  }

  lemma {:induction false} KeyLengthOfKey(key: string, rest: string)
    requires forall i :: 0 <= i < |key| ==> IsKeyChar(key[i])
    requires rest == [] || !IsKeyChar(rest[0])
    ensures KeyLength(key + rest) == |key|
  {
    if key != [] {
      var s := key + rest;
      assert s[0] == key[0];
      assert s[1..] == key[1..] + rest;
      KeyLengthOfKey(key[1..], rest);
    } else {
      assert key + rest == rest;
    }
  }

  /** A line with no leading blank, a key of `n` characters and `:` right after it. */
  lemma ParseKeyValueAt(line: string, n: nat)
    requires n >= 4 && n < |line| && !IsSpace(line[0]) && KeyLength(line) == n && line[n] == ':'
    requires Lower(line[..3]) == "sv_"
    ensures ParseKeyValue(line) == Some((Lower(line[..n]), Strip(line[n + 1..])))
  {
    assert TrimLeft(line) == line;
    assert TrimLeft(line[n..]) == line[n..];
    assert line[n..][1..] == line[n + 1..];
  }

  /** The line `key:value` splits back into its key, the colon and the value. */
  lemma KeyLine(key: string, value: string)
    requires key != []
    requires forall i :: 0 <= i < |key| ==> IsKeyChar(key[i])
    ensures KeyLength(key + ":" + value) == |key|
    ensures (key + ":" + value)[..|key|] == key
    ensures (key + ":" + value)[|key|] == ':'
    ensures (key + ":" + value)[|key| + 1..] == value
    ensures !IsSpace((key + ":" + value)[0])
  {
    var after := ":" + value;
    assert key + ":" + value == key + after;
    KeyLengthOfKey(key, after);
    assert (key + after)[|key| + 1..] == after[1..];
    assert (key + after)[0] == key[0];
  }

  /** `sv_key: value` reads back as the lower-cased key and the trimmed value. */
  lemma {:induction false} ParseKeyValueOf(key: string, value: string)
    requires |key| >= 4 && Lower(key[..3]) == "sv_"
    requires forall i :: 0 <= i < |key| ==> IsKeyChar(key[i])
    ensures ParseKeyValue(key + ":" + value) == Some((Lower(key), Strip(value)))
  {
    var line := key + ":" + value;
    KeyLine(key, value);
    assert line[..3] == key[..3];
    ParseKeyValueAt(line, |key|);
  }

  /** A value as the dictionary stores it: `v.strip().strip('"')`. */
  function CleanValue(v: string): string {
    StripChar(Strip(v), '"')
  }

  /** The pair one line contributes to the block: its key and cleaned value, if any. */
  function LinePair(line: string): Option<(string, string)> {
    match ParseKeyValue(line)
    case None => None
    case Some(kv) => Some((kv.0, CleanValue(kv.1)))
  }

  /** `KV_RE.findall(block)`: the key/value pairs of the block's lines, in order. */
  function BlockPairs(lines: seq<string>): seq<(string, string)> {
    Maps.Collect(lines, LinePair)
  }

  /** A line's pair is its parsed pair with the value cleaned. */
  lemma LinePairOf(line: string)
    ensures LinePair(line).Some? <==> ParseKeyValue(line).Some?
    ensures LinePair(line).Some? ==>
      LinePair(line).value == (ParseKeyValue(line).value.0, CleanValue(ParseKeyValue(line).value.1))
  {
  }

  /** The value a block gives a key is the cleaned value of the key's last line. */
  lemma {:induction false} BlockValueIsLast(lines: seq<string>, k: nat, key: string, value: string)
    requires k < |lines| && ParseKeyValue(lines[k]) == Some((key, value))
    requires forall j :: k < j < |lines| && ParseKeyValue(lines[j]).Some? ==> ParseKeyValue(lines[j]).value.0 != key
    ensures key in Maps.LastWins(BlockPairs(lines))
    ensures Maps.LastWins(BlockPairs(lines))[key] == CleanValue(value)
  {
    forall j | k < j < |lines| && LinePair(lines[j]).Some?
      ensures LinePair(lines[j]).value.0 != key
    {
      LinePairOf(lines[j]);
    }
    LinePairOf(lines[k]);
    Maps.CollectLastWins(lines, LinePair, k, key, CleanValue(value));
  }

  /** A key no line of the block carries is absent from the block's map. */
  lemma {:induction false} BlockKeyAbsent(lines: seq<string>, key: string)
    requires forall k :: 0 <= k < |lines| && ParseKeyValue(lines[k]).Some? ==> ParseKeyValue(lines[k]).value.0 != key
    ensures key !in Maps.LastWins(BlockPairs(lines))
  {
    forall j | 0 <= j < |lines| && LinePair(lines[j]).Some?
      ensures LinePair(lines[j]).value.0 != key
    {
      LinePairOf(lines[j]);
    }
    Maps.CollectKeyAbsent(lines, LinePair, key);
  }

  function Get(kv: map<string, string>, key: string, default: string): string {
    if key in kv then kv[key] else default
  }

  /** `int(value or 0)` of `sv_epoch`, absent when the text is not an integer. */
  function EpochOf(kv: map<string, string>): (r: Option<int>)
    ensures r.None? <==> "sv_epoch" in kv && kv["sv_epoch"] != "" && ParseInt(kv["sv_epoch"]).None?
    ensures r.Some? ==> r.value == (if "sv_epoch" in kv && kv["sv_epoch"] != "" then ParseInt(kv["sv_epoch"]).value else 0)
  {
    var epochText := Get(kv, "sv_epoch", "0");
    if epochText == "" then Some(0) else ParseInt(epochText)
  }

  /**
   * The record built from a block's key/value map: absent keys take the
   * dataclass defaults; `sv_epoch` goes through `int(value or 0)`.
   */
  function FromFields(kv: map<string, string>): (r: Result<SvMeta, ParseError>)
    ensures r.Err? <==> "sv_epoch" in kv && kv["sv_epoch"] != "" && ParseInt(kv["sv_epoch"]).None?
    ensures r.Ok? ==> r.value.epoch == (if "sv_epoch" in kv && kv["sv_epoch"] != "" then ParseInt(kv["sv_epoch"]).value else 0)
    ensures r.Ok? ==> r.value.version == (if "sv_version" in kv then kv["sv_version"] else DefaultVersion)
    ensures r.Ok? ==> r.value.buildId == (if "sv_build_id" in kv then kv["sv_build_id"] else DefaultBuildId)
    ensures r.Ok? ==>
      && r.value.file == (if "sv_file" in kv then kv["sv_file"] else "")
      && r.value.kind == (if "sv_kind" in kv then kv["sv_kind"] else "")
      && r.value.moduleName == (if "sv_module" in kv then kv["sv_module"] else "")
      && r.value.parentBuild == (if "sv_parent_build" in kv then kv["sv_parent_build"] else "")
      && r.value.hash == (if "sv_hash" in kv then kv["sv_hash"] else "")
      && r.value.sig == (if "sv_sig" in kv then kv["sv_sig"] else "")
  {
    var epoch := EpochOf(kv);
    if epoch.None? then Err(EpochNotInteger(Get(kv, "sv_epoch", "0")))
    else Ok(SvMeta(
      Get(kv, "sv_file", ""),
      Get(kv, "sv_kind", ""),
      Get(kv, "sv_module", ""),
      Get(kv, "sv_version", DefaultVersion),
      Get(kv, "sv_build_id", DefaultBuildId),
      epoch.value,
      Get(kv, "sv_parent_build", ""),
      Get(kv, "sv_hash", ""),
      Get(kv, "sv_sig", "")))
  }

  /** `SvMeta.from_text`: the record of the first block, or the default record. */
  function FromText(txt: string): Result<SvMeta, ParseError>
  {
    var lines := Split(txt, '\n');
    match FindBlock(lines)
    case None => Ok(Default())
    case Some((b, e)) => FromFields(Maps.LastWins(BlockPairs(lines[b + 1..e])))
  }

  /**
   * Without a begin marker line that some end marker line follows, the text
   * reads as the default record.
   */
  lemma FromTextWithoutBlock(txt: string)
    requires forall b, e :: 0 <= b < e < |Split(txt, '\n')| && IsMarker(Split(txt, '\n')[b], BeginTitle) ==> !IsMarker(Split(txt, '\n')[e], EndTitle)
    ensures FromText(txt) == Ok(Default())
    ensures FromText(txt).value.epoch == 0 && FromText(txt).value.version == "0.0.0"
  {
    FindBlockLeftmost(Split(txt, '\n'));
  }

  /** Inside a found block without an `sv_version` line the version is "0.0.0". */
  lemma FromTextVersionAbsent(txt: string, b: nat, e: nat)
    requires FindBlock(Split(txt, '\n')) == Some((b, e))
    requires FromText(txt).Ok?
    requires var block := Split(txt, '\n')[b + 1..e];
      forall k :: 0 <= k < |block| && ParseKeyValue(block[k]).Some? ==> ParseKeyValue(block[k]).value.0 != "sv_version"
    ensures FromText(txt).value.version == DefaultVersion
  {
    var block := Split(txt, '\n')[b + 1..e];
    BlockKeyAbsent(block, "sv_version");
    assert FromText(txt) == FromFields(Maps.LastWins(BlockPairs(block)));
  }

  /** Inside a found block the version is the cleaned value of the last `sv_version` line. */
  lemma FromTextVersionLast(txt: string, b: nat, e: nat, k: nat, v: string)
    requires FindBlock(Split(txt, '\n')) == Some((b, e))
    requires FromText(txt).Ok?
    requires var block := Split(txt, '\n')[b + 1..e];
      && k < |block| && ParseKeyValue(block[k]) == Some(("sv_version", v))
      && forall j :: k < j < |block| && ParseKeyValue(block[j]).Some? ==> ParseKeyValue(block[j]).value.0 != "sv_version"
    ensures FromText(txt).value.version == CleanValue(v)
  {
    var block := Split(txt, '\n')[b + 1..e];
    BlockValueIsLast(block, k, "sv_version", v);
    assert FromText(txt) == FromFields(Maps.LastWins(BlockPairs(block)));
  }

  // ---------------------------------------------------------------- order

  function OrderingKey(m: SvMeta): (int, Semver, string) {
    (m.epoch, ParseSemver(m.version), m.buildId)
  }

  predicate SemverLess(a: Semver, b: Semver) {
    a.0 < b.0 || (a.0 == b.0 && (a.1 < b.1 || (a.1 == b.1 && a.2 < b.2)))
  }

  /** Python's `<` on ordering keys: epoch, then semver, then build id. */
  predicate KeyLess(a: (int, Semver, string), b: (int, Semver, string)) {
    a.0 < b.0 || (a.0 == b.0 && (SemverLess(a.1, b.1) || (a.1 == b.1 && Less(a.2, b.2))))
  }

  lemma KeyLessTrichotomy(a: (int, Semver, string), b: (int, Semver, string))
    ensures a == b || KeyLess(a, b) || KeyLess(b, a)
    ensures !(KeyLess(a, b) && KeyLess(b, a))
    ensures !KeyLess(a, a)
  {
    LessTotal(a.2, b.2);
    LessIrreflexive(a.2);
    if Less(a.2, b.2) { LessAsymmetric(a.2, b.2); }
  }

  lemma KeyLessTransitive(a: (int, Semver, string), b: (int, Semver, string), c: (int, Semver, string))
    requires KeyLess(a, b) && KeyLess(b, c)
    ensures KeyLess(a, c)
  {
    if a.0 == b.0 == c.0 && a.1 == b.1 == c.1 {
      LessTransitive(a.2, b.2, c.2);
    }
  }

  /** `compare`: 1 when `a` is newer, -1 when older, 0 when the keys are equal. */
  function Compare(a: SvMeta, b: SvMeta): (r: int)
    ensures r == -1 || r == 0 || r == 1
    ensures r == 0 <==> OrderingKey(a) == OrderingKey(b)
    ensures r == 1 <==> KeyLess(OrderingKey(b), OrderingKey(a))
    ensures r == -1 <==> KeyLess(OrderingKey(a), OrderingKey(b))
  {
    var ka, kb := OrderingKey(a), OrderingKey(b);
    KeyLessTrichotomy(ka, kb);
    if KeyLess(kb, ka) then 1 else if KeyLess(ka, kb) then -1 else 0
  }

  lemma CompareAntisymmetric(a: SvMeta, b: SvMeta)
    ensures Compare(a, b) == -Compare(b, a)
  {
    KeyLessTrichotomy(OrderingKey(a), OrderingKey(b));
  }

  /** Records that agree on the ordering key compare equal, whatever else differs. */
  lemma CompareIgnoresOtherFields(a: SvMeta, b: SvMeta)
    requires a.epoch == b.epoch && ParseSemver(a.version) == ParseSemver(b.version) && a.buildId == b.buildId
    ensures Compare(a, b) == 0
  {
  }

  /** "Not older than" (`compare >= 0`) is a total preorder. */
  lemma CompareTotalPreorder(a: SvMeta, b: SvMeta, c: SvMeta)
    ensures Compare(a, a) == 0
    ensures Compare(a, b) >= 0 || Compare(b, a) >= 0
    ensures Compare(a, b) >= 0 && Compare(b, c) >= 0 ==> Compare(a, c) >= 0
    ensures Compare(a, b) > 0 && Compare(b, c) > 0 ==> Compare(a, c) > 0
  {
    var ka, kb, kc := OrderingKey(a), OrderingKey(b), OrderingKey(c);
    KeyLessTrichotomy(ka, kb);
    KeyLessTrichotomy(ka, kc);
    if KeyLess(kb, ka) && KeyLess(kc, kb) {
      KeyLessTransitive(kc, kb, ka);
    }
  }

  // ---------------------------------------------------------------- strip

  /** Where a finder of line ranges `find` reports a range, it lies inside the lines. */
  ghost predicate FindsInside(find: seq<string> -> Option<(nat, nat)>) {
    forall ls :: find(ls).Some? ==> find(ls).value.0 <= find(ls).value.1 < |ls|
  }

  /**
   * The lines left when the range `find` reports is cut out, both ends
   * included, again and again in what follows it until no range is left.
   */
  function CutRanges(lines: seq<string>, find: seq<string> -> Option<(nat, nat)>): seq<string>
    requires FindsInside(find)
    decreases |lines|
  {
    match find(lines)
    case None => lines
    case Some((b, e)) => lines[..b] + CutRanges(lines[e + 1..], find)
  }

  /** Cutting ranges never adds lines or characters. */
  lemma {:induction false} CutRangesShorter(lines: seq<string>, find: seq<string> -> Option<(nat, nat)>)
    requires FindsInside(find)
    ensures |CutRanges(lines, find)| <= |lines|
    ensures TotalLength(CutRanges(lines, find)) <= TotalLength(lines)
    decreases |lines|
  {
    match find(lines)
    case None =>
    case Some((b, e)) =>
      CutRangesShorter(lines[e + 1..], find);
      TotalLengthCut(lines, b, e, CutRanges(lines[e + 1..], find));
  }

  lemma FindBlockInside()
    ensures FindsInside(FindBlock)
  {
  }

  /** The lines left when every block is removed, begin and end markers included. */
  function StripLines(lines: seq<string>): seq<string>
  {
    FindBlockInside();
    CutRanges(lines, FindBlock)
  }

  /** `strip_metadata`: the text with its metadata blocks removed. */
  function StripMetadata(txt: string): string {
    Join(StripLines(Split(txt, '\n')), '\n')
  }

  /** A text without a block is returned unchanged. */
  lemma StripMetadataNoBlock(txt: string)
    requires FindBlock(Split(txt, '\n')) == None
    ensures StripMetadata(txt) == txt
  {
    JoinSplit(txt, '\n');
  }

  /** Stripping never makes the text longer. */
  lemma StripMetadataShorter(txt: string)
    ensures |StripMetadata(txt)| <= |txt|
  {
    var lines := Split(txt, '\n');
    var kept := StripLines(lines);
    FindBlockInside();
    CutRangesShorter(lines, FindBlock);
    JoinSplit(txt, '\n');
    JoinLength(lines, '\n');
    if kept != [] {
      JoinLength(kept, '\n');
    }
  }
}
