/** The string scanning behind `extractFirstJson` (services/aiService.ts) and its Python twin
    `extract_first_json` (backend/app.py): the lazy fence patterns "```json...```" and
    "```...```", the global removal of fence markers from a match, and the brace-depth scan
    that finds the first balanced object. */
module Extraction {
  import opened Base
  import opened Text

  /** Whose case-insensitive matching applies to the `json` tag. JavaScript's `i` flag without
      `u` folds only to upper case and never folds a non-ASCII character onto an ASCII one;
      Python's `re.IGNORECASE` on a str pattern also matches U+017F (long s) against `s`. */
  datatype Folding = JsFolding | PyFolding

  /** The two opening markers: "```json" (case-insensitive) and a bare "```". */
  datatype Opener = JsonTag | BareFence

  /** The character `c` is compared as: ASCII upper-case letters fold to lower case, and under
      Python's folding U+017F (long s) folds to `s`. */
  function Fold(f: Folding, c: char): char {
    if 'A' <= c <= 'Z' then (c as int + 32) as char
    else if f == PyFolding && c == '\U{017F}' then 's'
    else c
  }

  /** `c` matches the lower-case ASCII letter `letter` case-insensitively. */
  predicate FoldsTo(f: Folding, c: char, letter: char) {
    Fold(f, c) == letter
  }

  /** Three backticks start at `i`. */
  predicate FenceAt(s: string, i: int) {
    0 <= i && i + 3 <= |s| && s[i] == '`' && s[i + 1] == '`' && s[i + 2] == '`'
  }

  /** "```json", in any case the folding allows, starts at `i`. */
  predicate TagAt(f: Folding, s: string, i: int) {
    && FenceAt(s, i) && i + 7 <= |s|
    && FoldsTo(f, s[i + 3], 'j') && FoldsTo(f, s[i + 4], 's')
    && FoldsTo(f, s[i + 5], 'o') && FoldsTo(f, s[i + 6], 'n')
  }

  function OpenerLength(o: Opener): nat {
    match o
    case JsonTag => 7
    case BareFence => 3
  }

  predicate OpensAt(f: Folding, o: Opener, s: string, i: int) {
    match o
    case JsonTag => TagAt(f, s, i)
    case BareFence => FenceAt(s, i)
  }

  /** No three backticks start anywhere in [lo, hi). */
  ghost predicate NoFenceIn(s: string, lo: int, hi: int) {
    forall i :: lo <= i < hi ==> !FenceAt(s, i)
  }

  /** The first "```" starting at or after `from`. */
  function FindFence(s: string, from: nat): (r: Option<nat>)
    ensures r.Some? ==> from <= r.value && FenceAt(s, r.value) && NoFenceIn(s, from, r.value)
    ensures r.None? <==> NoFenceIn(s, from, |s|)
    decreases |s| - from
  {
    if from + 3 > |s| then None
    else if FenceAt(s, from) then Some(from)
    else FindFence(s, from + 1)
  }

  /** The first opening marker starting at or after `from`. */
  function FindOpener(f: Folding, o: Opener, s: string, from: nat): (r: Option<nat>)
    ensures r.Some? ==> from <= r.value && OpensAt(f, o, s, r.value)
    ensures r.Some? ==> forall i :: from <= i < r.value ==> !OpensAt(f, o, s, i)
    ensures r.None? ==> forall i :: from <= i ==> !OpensAt(f, o, s, i)
    decreases |s| - from
  {
    if from >= |s| then None
    else if OpensAt(f, o, s, from) then Some(from)
    else FindOpener(f, o, s, from + 1)
  }

  /** The first match, at start position `p` or later, of the lazy pattern
      opener-then-anything-then-"```", as the regular-expression engine finds it: it tries each
      start position in turn, and where the opener matches, the lazy body grows one character at
      a time until "```" follows. The pair is (start, end) of the matched text s[start..end]. */
  function MatchFrom(f: Folding, o: Opener, s: string, p: nat): (r: Option<(nat, nat)>)
    ensures r.Some? ==> p <= r.value.0 && r.value.0 + OpenerLength(o) + 3 <= r.value.1 <= |s|
    ensures r.Some? ==> OpensAt(f, o, s, r.value.0) && FenceAt(s, r.value.1 - 3)
    ensures r.Some? ==> NoFenceIn(s, r.value.0 + OpenerLength(o), r.value.1 - 3)
    decreases |s| - p
  {
    if p >= |s| then None
    else if OpensAt(f, o, s, p) then
      match FindFence(s, p + OpenerLength(o))
      case Some(q) => Some((p, q + 3))
      case None => MatchFrom(f, o, s, p + 1)
    else MatchFrom(f, o, s, p + 1)
  }

  /** The block the lazy pattern should select, described directly: the FIRST opening marker,
      closed by the first "```" after it; none when that marker is never closed. */
  function FirstBlock(f: Folding, o: Opener, s: string, p: nat): Option<(nat, nat)> {
    match FindOpener(f, o, s, p)
    case None => None
    case Some(a) =>
      match FindFence(s, a + OpenerLength(o))
      case None => None
      case Some(q) => Some((a, q + 3))
  }

  /** The engine's match is that block: an unclosed first marker leaves no later marker
      closable, so the engine never settles on a later start. */
  lemma {:induction false} MatchIsFirstBlock(f: Folding, o: Opener, s: string, p: nat)
    ensures MatchFrom(f, o, s, p) == FirstBlock(f, o, s, p)
    decreases |s| - p
  {
    if p >= |s| {
      MatchPastEnd(f, o, s, p);
    } else if OpensAt(f, o, s, p) {
      MatchAtOpener(f, o, s, p);
    } else {
      MatchPastNonOpener(f, o, s, p);
      FirstBlockPastNonOpener(f, o, s, p);
      MatchIsFirstBlock(f, o, s, p + 1);
    }
  }

  lemma MatchPastEnd(f: Folding, o: Opener, s: string, p: nat)
    requires p >= |s|
    ensures MatchFrom(f, o, s, p) == None == FirstBlock(f, o, s, p)
  {
  }

  lemma MatchAtOpener(f: Folding, o: Opener, s: string, p: nat)
    requires p < |s| && OpensAt(f, o, s, p)
    ensures MatchFrom(f, o, s, p) == FirstBlock(f, o, s, p)
  {
    if FindFence(s, p + OpenerLength(o)).Some? {
      ClosedOpenerMatches(f, o, s, p);
    } else {
      FirstOpenerAt(f, o, s, p);
      UnclosedOpenerMatchesNothing(f, o, s, p);
    }
  }

  lemma ClosedOpenerMatches(f: Folding, o: Opener, s: string, p: nat)
    requires p < |s| && OpensAt(f, o, s, p) && FindFence(s, p + OpenerLength(o)).Some?
    ensures MatchFrom(f, o, s, p) == Some((p, FindFence(s, p + OpenerLength(o)).value + 3))
    ensures FirstBlock(f, o, s, p) == Some((p, FindFence(s, p + OpenerLength(o)).value + 3))
  {
    EngineStopsAtClosedOpener(f, o, s, p);
    FirstOpenerAt(f, o, s, p);
  }

  lemma EngineStopsAtClosedOpener(f: Folding, o: Opener, s: string, p: nat)
    requires p < |s| && OpensAt(f, o, s, p) && FindFence(s, p + OpenerLength(o)).Some?
    ensures MatchFrom(f, o, s, p) == Some((p, FindFence(s, p + OpenerLength(o)).value + 3))
  {
  }

  lemma FirstOpenerAt(f: Folding, o: Opener, s: string, p: nat)
    requires p < |s| && OpensAt(f, o, s, p)
    ensures FindOpener(f, o, s, p) == Some(p)
  {
  }

  lemma UnclosedOpenerMatchesNothing(f: Folding, o: Opener, s: string, p: nat)
    requires p < |s| && OpensAt(f, o, s, p) && FindFence(s, p + OpenerLength(o)).None?
    ensures MatchFrom(f, o, s, p).None?
  {
    assert MatchFrom(f, o, s, p) == MatchFrom(f, o, s, p + 1);
  }

  lemma MatchPastNonOpener(f: Folding, o: Opener, s: string, p: nat)
    requires p < |s| && !OpensAt(f, o, s, p)
    ensures MatchFrom(f, o, s, p) == MatchFrom(f, o, s, p + 1)
  {
  }

  lemma FirstBlockPastNonOpener(f: Folding, o: Opener, s: string, p: nat)
    requires p < |s| && !OpensAt(f, o, s, p)
    ensures FirstBlock(f, o, s, p) == FirstBlock(f, o, s, p + 1)
  {
    OpenerPastNonOpener(f, o, s, p);
  }

  lemma OpenerPastNonOpener(f: Folding, o: Opener, s: string, p: nat)
    requires p < |s| && !OpensAt(f, o, s, p)
    ensures FindOpener(f, o, s, p) == FindOpener(f, o, s, p + 1)
  {
  }

  /** Global replacement of the markers by the empty string, scanning left to right and
      resuming after each deletion: `replace(/```json|```/gi, '')` and
      `re.sub(r"```json|```", "", m, flags=re.IGNORECASE)` when `withTag`, and
      `re.sub(r"```", "", m)` otherwise. The alternatives are tried in order at each position. */
  function RemoveMarkers(f: Folding, withTag: bool, s: string): (r: string)
    ensures |r| <= |s|
    decreases |s|
  {
    if withTag && TagAt(f, s, 0) then RemoveMarkers(f, withTag, s[7..])
    else if FenceAt(s, 0) then RemoveMarkers(f, withTag, s[3..])
    else if s == [] then []
    else [s[0]] + RemoveMarkers(f, withTag, s[1..])
  }

  /** A stretch free of fences passes through marker removal untouched. */
  lemma {:induction false} RemoveMarkersKeepsPlainPrefix(f: Folding, withTag: bool, s: string, n: nat)
    requires n <= |s| && NoFenceIn(s, 0, n)
    ensures RemoveMarkers(f, withTag, s) == s[..n] + RemoveMarkers(f, withTag, s[n..])
    decreases n
  {
    if n > 0 {
      var t := s[1..];
      var rest := RemoveMarkers(f, withTag, s[n..]);
      assert RemoveMarkers(f, withTag, s) == [s[0]] + RemoveMarkers(f, withTag, t) by {
        RemoveMarkersPlainHead(f, withTag, s);
      }
      assert RemoveMarkers(f, withTag, t) == t[..n - 1] + rest by {
        NoFenceInTail(s, n);
        RemoveMarkersKeepsPlainPrefix(f, withTag, t, n - 1);
        ConsSlices(s, n);
      }
      assert [s[0]] + t[..n - 1] == s[..n] by {
        ConsSlices(s, n);
      }
    }
  }

  lemma NoFenceInTail(s: string, n: nat)
    requires 0 < n <= |s| && NoFenceIn(s, 0, n)
    ensures NoFenceIn(s[1..], 0, n - 1)
  {
    forall i | 0 <= i < n - 1 ensures !FenceAt(s[1..], i) {
      assert !FenceAt(s, i + 1);
    }
  }

  lemma ConsSlices(s: string, n: nat)
    requires 0 < n <= |s|
    ensures s[1..][n - 1..] == s[n..] && s[..n] == [s[0]] + s[1..][..n - 1]
  {
  }

  lemma RemoveMarkersPlainHead(f: Folding, withTag: bool, s: string)
    requires |s| > 0 && !FenceAt(s, 0)
    ensures RemoveMarkers(f, withTag, s) == [s[0]] + RemoveMarkers(f, withTag, s[1..])
  {
  }

  /** Removing the markers from a matched block leaves exactly the text strictly between the
      opening marker and the closing "```": the laziness of the pattern guarantees that no
      other marker lies inside it. */
  lemma BlockInterior(f: Folding, o: Opener, withTag: bool, m: string)
    requires OpenerLength(o) + 3 <= |m|
    requires OpensAt(f, o, m, 0) && FenceAt(m, |m| - 3)
    requires NoFenceIn(m, OpenerLength(o), |m| - 3)
    requires o == JsonTag ==> withTag
    requires o == BareFence && withTag ==> !TagAt(f, m, 0)
    ensures RemoveMarkers(f, withTag, m) == m[OpenerLength(o)..|m| - 3]
  {
    var len := OpenerLength(o);
    var body := m[len..];
    var n := |m| - 3 - len;
    RemoveOpener(f, o, withTag, m);
    NoFenceInSuffix(m, len, n);
    RemoveMarkersKeepsPlainPrefix(f, withTag, body, n);
    RemoveClosingFence(f, withTag, body[n..]);
    assert body[..n] == m[len..|m| - 3];
  }

  lemma RemoveOpener(f: Folding, o: Opener, withTag: bool, m: string)
    requires OpenerLength(o) <= |m| && OpensAt(f, o, m, 0)
    requires o == JsonTag ==> withTag
    requires o == BareFence && withTag ==> !TagAt(f, m, 0)
    ensures RemoveMarkers(f, withTag, m) == RemoveMarkers(f, withTag, m[OpenerLength(o)..])
  {
  }

  lemma NoFenceInSuffix(m: string, len: nat, n: nat)
    requires len + n <= |m| && NoFenceIn(m, len, len + n)
    ensures NoFenceIn(m[len..], 0, n)
  {
    forall i | 0 <= i < n ensures !FenceAt(m[len..], i) {
      assert !FenceAt(m, len + i);
    }
  }

  lemma RemoveClosingFence(f: Folding, withTag: bool, t: string)
    requires |t| == 3 && FenceAt(t, 0)
    ensures RemoveMarkers(f, withTag, t) == []
  {
    assert !TagAt(f, t, 0);
    assert t[3..] == [];
  }

  /** A fence at or after the start of a block's letters cannot start on a letter of a json
      tag, so it lies beyond the tag. */
  lemma FenceBeyondTag(f: Folding, s: string, a: nat, q: nat)
    requires TagAt(f, s, a) && FenceAt(s, q) && a + 3 <= q
    ensures a + 7 <= q
  {
  }

  /** A matched block seen on its own: the block's text opens with the opener, closes with a
      fence and holds no fence in between. */
  lemma BlockSlice(f: Folding, o: Opener, s: string, a: nat, b: nat)
    requires a + OpenerLength(o) + 3 <= b <= |s|
    requires OpensAt(f, o, s, a) && FenceAt(s, b - 3)
    requires NoFenceIn(s, a + OpenerLength(o), b - 3)
    ensures OpensAt(f, o, s[a..b], 0) && FenceAt(s[a..b], b - a - 3)
    ensures NoFenceIn(s[a..b], OpenerLength(o), b - a - 3)
    ensures TagAt(f, s[a..b], 0) ==> TagAt(f, s, a)
  {
    var m := s[a..b];
    forall i | OpenerLength(o) <= i < b - a - 3 ensures !FenceAt(m, i) {
      assert !FenceAt(s, a + i);
    }
  }

  /** Every json-tagged block is also a block of the bare pattern: the bare opener at or before
      the tag is closed by the tag block's closing fence, if by nothing earlier. */
  lemma BareBlockWhenTagBlock(f: Folding, s: string)
    requires FirstBlock(f, JsonTag, s, 0).Some?
    ensures FirstBlock(f, BareFence, s, 0).Some?
  {
    var a := FindOpener(f, JsonTag, s, 0).value;
    var q := FindFence(s, a + 7).value;
    assert OpensAt(f, BareFence, s, a);
    var a' := FindOpener(f, BareFence, s, 0).value;
    assert a' <= a;
    assert FenceAt(s, q) && a' + 3 <= q;
  }

  /** A bare block that opens with a json tag is closed beyond the tag, so the tag pattern has a
      block too. */
  lemma TagBlockWhenTaggedBareBlock(f: Folding, s: string, a: nat, b: nat)
    requires MatchFrom(f, BareFence, s, 0) == Some((a, b)) && TagAt(f, s, a)
    ensures FirstBlock(f, JsonTag, s, 0).Some?
  {
    FenceBeyondTag(f, s, a, b - 3);
    assert OpensAt(f, JsonTag, s, a);
    var a' := FindOpener(f, JsonTag, s, 0).value;
    assert a' <= a;
    assert FenceAt(s, b - 3) && a' + 7 <= b - 3;
  }

  /** The fence stage shared by both implementations: the first json-tagged block if any, else
      the first bare block, with its markers removed and the result trimmed by `ws`; nothing
      when neither pattern matches. `bareWithTag` says whether marker removal on a bare block
      also removes "```json" (TypeScript) or only "```" (Python). */
  function FenceStage(f: Folding, bareWithTag: bool, ws: char -> bool, s: string): (r: Option<string>)
    ensures r.Some? ==> |r.value| <= |s|
  {
    match MatchFrom(f, JsonTag, s, 0)
    case Some(m) => Some(Trim(RemoveMarkers(f, true, s[m.0..m.1]), ws))
    case None =>
      match MatchFrom(f, BareFence, s, 0)
      case Some(m) => Some(Trim(RemoveMarkers(f, bareWithTag, s[m.0..m.1]), ws))
      case None => None
  }

  /** Marker removal on the engine's match leaves the text strictly between opener and closing
      fence. */
  lemma MatchedBlockText(f: Folding, o: Opener, withTag: bool, s: string, a: nat, b: nat)
    requires MatchFrom(f, o, s, 0) == Some((a, b))
    requires o == JsonTag ==> withTag
    requires o == BareFence && withTag ==> !TagAt(f, s, a)
    ensures RemoveMarkers(f, withTag, s[a..b]) == s[a + OpenerLength(o)..b - 3]
  {
    BlockText(f, o, withTag, s, a, b);
  }

  /** The same for any block: an opener at `a`, a fence ending at `b` and no fence between. */
  lemma BlockText(f: Folding, o: Opener, withTag: bool, s: string, a: nat, b: nat)
    requires a + OpenerLength(o) + 3 <= b <= |s|
    requires OpensAt(f, o, s, a) && FenceAt(s, b - 3)
    requires NoFenceIn(s, a + OpenerLength(o), b - 3)
    requires o == JsonTag ==> withTag
    requires o == BareFence && withTag ==> !TagAt(f, s, a)
    ensures RemoveMarkers(f, withTag, s[a..b]) == s[a + OpenerLength(o)..b - 3]
  {
    BlockSlice(f, o, s, a, b);
    BlockInterior(f, o, withTag, s[a..b]);
    SliceOfSlice(s, a, b, OpenerLength(o), b - a - 3);
  }

  lemma SliceOfSlice(s: string, a: nat, b: nat, i: nat, j: nat)
    requires a <= b <= |s| && i <= j <= b - a
    ensures s[a..b][i..j] == s[a + i..a + j]
  {
    var m := s[a..b];
    assert forall k :: 0 <= k < j - i ==> m[i..j][k] == m[i + k] == s[a + i + k];
  }

  /** With a json-tagged block, the stage yields the trimmed text strictly between its tag and
      the first fence after the tag. */
  lemma FenceStageTagged(f: Folding, bareWithTag: bool, ws: char -> bool, s: string, a: nat, b: nat)
    requires FirstBlock(f, JsonTag, s, 0) == Some((a, b))
    ensures a + 10 <= b <= |s| && TagAt(f, s, a) && FenceAt(s, b - 3)
    ensures FenceStage(f, bareWithTag, ws, s) == Some(Trim(s[a + 7..b - 3], ws))
  {
    assert MatchFrom(f, JsonTag, s, 0) == Some((a, b)) by {
      MatchIsFirstBlock(f, JsonTag, s, 0);
    }
    assert RemoveMarkers(f, true, s[a..b]) == s[a + 7..b - 3] by {
      MatchedBlockText(f, JsonTag, true, s, a, b);
    }
  }

  /** Without a json-tagged block, the stage yields the trimmed text strictly between the first
      bare opener and the first fence after it. */
  lemma FenceStageBare(f: Folding, bareWithTag: bool, ws: char -> bool, s: string, a: nat, b: nat)
    requires FirstBlock(f, JsonTag, s, 0).None?
    requires FirstBlock(f, BareFence, s, 0) == Some((a, b))
    ensures a + 6 <= b <= |s| && FenceAt(s, a) && FenceAt(s, b - 3)
    ensures FenceStage(f, bareWithTag, ws, s) == Some(Trim(s[a + 3..b - 3], ws))
  {
    BareMatch(f, s, a, b);
    MatchedBlockText(f, BareFence, bareWithTag, s, a, b);
    StageOfBareMatch(f, bareWithTag, ws, s, a, b);
  }

  /** The engine agrees with the reference on both patterns, and the first bare block does not
      open with a json tag. */
  lemma BareMatch(f: Folding, s: string, a: nat, b: nat)
    requires FirstBlock(f, JsonTag, s, 0).None?
    requires FirstBlock(f, BareFence, s, 0) == Some((a, b))
    ensures MatchFrom(f, JsonTag, s, 0).None? && MatchFrom(f, BareFence, s, 0) == Some((a, b))
    ensures !TagAt(f, s, a)
  {
    MatchIsFirstBlock(f, JsonTag, s, 0);
    MatchIsFirstBlock(f, BareFence, s, 0);
    if TagAt(f, s, a) {
      TagBlockWhenTaggedBareBlock(f, s, a, b);
    }
  }

  lemma StageOfBareMatch(f: Folding, bareWithTag: bool, ws: char -> bool, s: string, a: nat, b: nat)
    requires MatchFrom(f, JsonTag, s, 0).None? && MatchFrom(f, BareFence, s, 0) == Some((a, b))
    ensures a <= b <= |s|
    ensures FenceStage(f, bareWithTag, ws, s) == Some(Trim(RemoveMarkers(f, bareWithTag, s[a..b]), ws))
  {
  }

  /** The stage yields nothing exactly when no bare block is closed. */
  lemma FenceStageNone(f: Folding, bareWithTag: bool, ws: char -> bool, s: string)
    ensures FenceStage(f, bareWithTag, ws, s).None? <==> FirstBlock(f, BareFence, s, 0).None?
  {
    MatchIsFirstBlock(f, JsonTag, s, 0);
    MatchIsFirstBlock(f, BareFence, s, 0);
    if FirstBlock(f, JsonTag, s, 0).Some? {
      BareBlockWhenTagBlock(f, s);
    }
  }

  /** A text made of one json-tagged block yields its trimmed interior. */
  lemma SingleTaggedBlock(f: Folding, bareWithTag: bool, ws: char -> bool, tag: string, mid: string)
    requires |tag| == 7 && TagAt(f, tag, 0) && '`' !in mid
    ensures FenceStage(f, bareWithTag, ws, tag + mid + "```") == Some(Trim(mid, ws))
  {
    var s := tag + mid + "```";
    var n := |s|;
    SingleTaggedBlockShape(f, tag, mid);
    FirstOpenerAt(f, JsonTag, s, 0);
    FirstFenceAt(s, 7, n - 3);
    FenceStageTagged(f, bareWithTag, ws, s, 0, n);
  }

  lemma SingleTaggedBlockShape(f: Folding, tag: string, mid: string)
    requires |tag| == 7 && TagAt(f, tag, 0) && '`' !in mid
    ensures var s := tag + mid + "```";
      && TagAt(f, s, 0) && FenceAt(s, |s| - 3) && NoFenceIn(s, 7, |s| - 3) && s[7..|s| - 3] == mid
  {
    var s := tag + mid + "```";
    assert forall i :: 0 <= i < 7 ==> s[i] == tag[i];
    assert forall i :: 7 <= i < |s| - 3 ==> s[i] == mid[i - 7];
    assert s[7..|s| - 3] == mid;
  }

  lemma FirstFenceAt(s: string, from: nat, q: nat)
    requires from <= q && FenceAt(s, q) && NoFenceIn(s, from, q)
    ensures FindFence(s, from) == Some(q)
    decreases q - from
  {
    if from < q {
      FirstFenceAt(s, from + 1, q);
    }
  }

  /** A text made of one bare block whose opening line is not a json tag yields the trimmed
      text after the opening fence, the tag's letters included. */
  lemma SingleBareBlock(f: Folding, bareWithTag: bool, ws: char -> bool, tag: string, mid: string)
    requires |tag| == 7 && FenceAt(tag, 0) && !TagAt(f, tag, 0) && '`' !in tag[3..] && '`' !in mid
    ensures FenceStage(f, bareWithTag, ws, tag + mid + "```") == Some(Trim(tag[3..] + mid, ws))
  {
    var s := tag + mid + "```";
    var n := |s|;
    SingleBareBlockShape(tag, mid);
    SingleBareBlockNoTag(f, tag, mid);
    FirstOpenerAt(f, BareFence, s, 0);
    FirstFenceAt(s, 3, n - 3);
    FenceStageBare(f, bareWithTag, ws, s, 0, n);
  }

  lemma SingleBareBlockShape(tag: string, mid: string)
    requires |tag| == 7 && FenceAt(tag, 0) && '`' !in tag[3..] && '`' !in mid
    ensures var s := tag + mid + "```";
      && FenceAt(s, 0) && FenceAt(s, |s| - 3) && s[3..|s| - 3] == tag[3..] + mid
      && (forall i :: 3 <= i < |s| - 3 ==> s[i] != '`')
      && (forall i :: 0 <= i < 7 ==> s[i] == tag[i])
  {
    var s := tag + mid + "```";
    assert forall i :: 0 <= i < 7 ==> s[i] == tag[i];
    assert forall i :: 3 <= i < 7 ==> s[i] == tag[3..][i - 3];
    assert forall i :: 7 <= i < |s| - 3 ==> s[i] == mid[i - 7];
    assert s[3..|s| - 3] == tag[3..] + mid;
  }

  lemma SingleBareBlockNoTag(f: Folding, tag: string, mid: string)
    requires |tag| == 7 && FenceAt(tag, 0) && !TagAt(f, tag, 0) && '`' !in tag[3..] && '`' !in mid
    ensures FirstBlock(f, JsonTag, tag + mid + "```", 0).None?
  {
    var s := tag + mid + "```";
    SingleBareBlockShape(tag, mid);
    forall i | 0 <= i ensures !OpensAt(f, JsonTag, s, i) {
      if i == 0 {
        assert !TagAt(f, tag, 0);
      } else if i < 3 {
        assert s[i + 2] != '`';
      } else if i < |s| - 3 {
        assert s[i] != '`';
      }
    }
  }

  /** A block around `core`, opened by a json tag and a newline and closed by a newline and a
      fence, yields `core` whenever `core` holds no backtick and has no whitespace at either
      end. */
  lemma WrappedBlock(f: Folding, bareWithTag: bool, ws: char -> bool, tag: string, core: string)
    requires |tag| == 7 && TagAt(f, tag, 0)
    requires '`' !in core && ws('\n')
    requires core == [] || (!ws(core[0]) && !ws(core[|core| - 1]))
    ensures FenceStage(f, bareWithTag, ws, tag + "\n" + core + "\n```") == Some(core)
  {
    var mid := "\n" + core + "\n";
    assert tag + "\n" + core + "\n```" == tag + mid + "```";
    assert '`' !in mid by {
      assert forall i :: 0 < i < |mid| - 1 ==> mid[i] == core[i - 1];
    }
    SingleTaggedBlock(f, bareWithTag, ws, tag, mid);
    assert AllWhitespace("\n", ws);
    TrimPadded("\n", core, "\n", ws);
  }

  /** A text without a backtick has no block. */
  lemma NoBacktickNoBlock(f: Folding, o: Opener, s: string)
    requires '`' !in s
    ensures FirstBlock(f, o, s, 0).None?
  {
    assert forall i :: 0 <= i ==> !OpensAt(f, o, s, i) by {
      forall i | 0 <= i ensures !OpensAt(f, o, s, i) {
        if 0 <= i < |s| { assert s[i] != '`'; }
      }
    }
  }

  // ---------------------------------------------------------------------------------------
  // The brace-depth scan.

  /** Number of occurrences of `c` in `t`. */
  function Count(t: string, c: char): nat {
    if t == [] then 0
    else Count(t[..|t| - 1], c) + (if t[|t| - 1] == c then 1 else 0)
  }

  /** Opening minus closing braces in `t`: the scan's depth counter after reading `t`. */
  function Depth(t: string): int {
    Count(t, '{') - Count(t, '}')
  }

  function Step(c: char): int {
    if c == '{' then 1 else if c == '}' then -1 else 0
  }

  lemma DepthExtend(s: string, a: nat, i: nat)
    requires a <= i < |s|
    ensures Depth(s[a..i + 1]) == Depth(s[a..i]) + Step(s[i])
  {
    assert s[a..i + 1][..i - a] == s[a..i];
  }

  /** The scan loop of both implementations from index `i` on, with `depth` the counter so far
      for the object opened at `first`. It answers the index just past the brace at which the
      depth first returns to zero, or nothing when the text ends first. */
  function CloseFrom(s: string, first: nat, i: nat, depth: int): (r: Option<nat>)
    requires first < |s| && s[first] == '{'
    requires first <= i <= |s|
    requires depth == Depth(s[first..i])
    requires forall k :: first < k <= i ==> Depth(s[first..k]) > 0
    ensures r.Some? ==> i < r.value <= |s| && Depth(s[first..r.value]) == 0
    ensures r.Some? ==> forall k :: first < k < r.value ==> Depth(s[first..k]) > 0
    ensures r.None? ==> forall k :: first < k <= |s| ==> Depth(s[first..k]) > 0
    decreases |s| - i
  {
    if i == |s| then None
    else
      DepthExtend(s, first, i);
      var d := depth + Step(s[i]);
      if s[i] == '}' && d == 0 then Some(i + 1)
      else CloseFrom(s, first, i + 1, d)
  }

  /** The text from the first-found `{` (at `first`) through the brace that balances it, or
      the whole rest of the text when nothing balances it: `text.slice(firstBrace, i + 1)` /
      `text.slice(firstBrace)` and the Python slices. */
  function BalancedObject(s: string, first: nat): (r: string)
    requires first < |s| && s[first] == '{'
    ensures 0 < |r| <= |s| - first && r == s[first..first + |r|]
    ensures forall k :: 0 < k < |r| ==> Depth(r[..k]) > 0
    ensures Depth(r) == 0 || r == s[first..]
    ensures Depth(r) != 0 ==> Depth(r) > 0 && forall k :: 0 < k <= |r| ==> Depth(r[..k]) > 0
    ensures forall k :: first < k < first + |r| ==> Depth(s[first..k]) > 0
    ensures Depth(s[first..first + |r|]) == 0 || first + |r| == |s|
  {
    match CloseFrom(s, first, first, 0)
    case Some(e) =>
      var r := s[first..e];
      assert forall k :: 0 < k < |r| ==> r[..k] == s[first..first + k];
      r
    case None =>
      var r := s[first..];
      assert forall k :: 0 < k <= |r| ==> r[..k] == s[first..first + k];
      r
  }

  /** Equal counts of `{` and `}`, every proper non-empty prefix with strictly more `{`:
      the object a scan starting at its first character returns whole. */
  ghost predicate IsBalancedObject(j: string) {
    && Depth(j) == 0
    && forall k :: 0 < k < |j| ==> Depth(j[..k]) > 0
  }

  /** On a text that starts with a balanced object the scan returns that object, whatever
      follows it. */
  lemma BalancedObjectOfPrefix(j: string, rest: string)
    requires |j| > 0 && j[0] == '{' && IsBalancedObject(j)
    ensures BalancedObject(j + rest, 0) == j
  {
    var s := j + rest;
    var r := BalancedObject(s, 0);
    assert s[0..|j|] == j;
    assert forall k :: 0 < k < |j| ==> s[0..k] == j[..k];
    assert |r| == |j|;
  }

  /** The brace stage shared by both implementations: the balanced object (or unbalanced rest)
      from the first `{`; nothing when the text holds no `{`. */
  function BraceStage(s: string): (r: Option<string>)
    ensures r.None? <==> '{' !in s
    ensures r.Some? ==> exists first :: (0 <= first < |s| && s[first] == '{' && '{' !in s[..first]
      && r.value == BalancedObject(s, first))
  {
    match IndexOf(s, '{')
    case None => None
    case Some(first) =>
      assert '{' !in s[..first];
      Some(BalancedObject(s, first))
  }

  /** A balanced object closes with a `}`: the depth drops to zero only on one. */
  lemma BalancedObjectEnds(j: string)
    requires |j| > 0 && j[0] == '{' && IsBalancedObject(j)
    ensures |j| >= 2 && j[|j| - 1] == '}'
  {
    assert Depth(j[..1]) == 1 by {
      var t := j[..1];
      assert t[..|t| - 1] == [] && t[|t| - 1] == '{';
      assert Count(t, '{') == 1 && Count(t, '}') == 0;
    }
    assert j[..|j|] == j;
    DepthExtend(j, 0, |j| - 1);
    assert j[0..|j|] == j && j[0..|j| - 1] == j[..|j| - 1];
  }

  /** On a balanced object, the brace stage returns the object itself. */
  lemma BraceStageOfObject(j: string)
    requires |j| > 0 && j[0] == '{' && IsBalancedObject(j)
    ensures BraceStage(j) == Some(j)
  {
    assert j + [] == j;
    BalancedObjectOfPrefix(j, []);
  }
}
