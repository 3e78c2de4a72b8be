/** Attachment ids (`attachmentStore.ts`): a thread's name reduced to a safe segment, a UUID and an
    optional file extension, joined by dashes; reading such an id back; claiming a pending upload for
    a thread; and the sweep that deletes stale uploads. */
module AttachmentIds {
  import opened Prelude

  const THREAD_SEGMENT_MAX_CHARS: nat := 80
  const PENDING := "pending"
  const PENDING_MAX_AGE_MS := 24 * 60 * 60 * 1000
  const PARTIAL_MAX_AGE_MS := 60 * 60 * 1000

  // ----- The thread segment -----

  predicate IsLowerWord(c: char) { 'a' <= c <= 'z' || '0' <= c <= '9' || c == '_' }

  predicate IsUpper(c: char) { 'A' <= c <= 'Z' }

  /** The classes of the id pattern ignore case. */
  predicate IsWord(c: char) { IsLowerWord(c) || IsUpper(c) }

  predicate IsEdge(c: char) { c == '-' || c == '_' }

  /** Every run of other characters becomes one dash. */
  function ReplaceRuns(text: string, inRun: bool): string {
    if text == "" then ""
    else if IsWord(text[0]) || text[0] == '-' then [text[0]] + ReplaceRuns(text[1..], false)
    else (if inRun then "" else "-") + ReplaceRuns(text[1..], true)
  }

  function CollapseDashes(text: string, afterDash: bool): string {
    if text == "" then ""
    else if text[0] == '-' then (if afterDash then "" else "-") + CollapseDashes(text[1..], true)
    else [text[0]] + CollapseDashes(text[1..], false)
  }

  function TrimStart(text: string): string {
    if text != "" && IsEdge(text[0]) then TrimStart(text[1..]) else text
  }

  function TrimEnd(text: string): string {
    if text != "" && IsEdge(text[|text| - 1]) then TrimEnd(text[..|text| - 1]) else text
  }

  function Shortened(text: string): string {
    if |text| <= THREAD_SEGMENT_MAX_CHARS then text else text[..THREAD_SEGMENT_MAX_CHARS]
  }

  /** `toSafeThreadAttachmentSegment`, of a thread id that was trimmed and put in lower case. */
  function ThreadSegment(lowered: string): Option<string> {
    var segment := TrimEnd(Shortened(TrimEnd(TrimStart(CollapseDashes(ReplaceRuns(lowered, false), false)))));
    if segment == "" then None
    else if segment == PENDING then Some("_" + PENDING)
    else Some(segment)
  }

  /** Word characters in groups, with single dashes between: the segment part of the id pattern. */
  predicate IsSegment(text: string) {
    && text != "" && text[0] != '-' && text[|text| - 1] != '-'
    && (forall c <- text :: IsWord(c) || c == '-')
    && NoDoubleDash(text)
  }

  predicate NoDoubleDash(text: string) {
    forall i :: 0 < i < |text| ==> !(text[i - 1] == '-' && text[i] == '-')
  }

  predicate IsLower(text: string) {
    forall c <- text :: !IsUpper(c)
  }

  predicate SafeChars(text: string) {
    forall c <- text :: IsWord(c) || c == '-'
  }

  lemma {:induction false} ReplacedIsSafe(text: string, inRun: bool)
    ensures SafeChars(ReplaceRuns(text, inRun))
    ensures IsLower(text) ==> IsLower(ReplaceRuns(text, inRun))
  {
    if text != "" {
      assert text[0] in text;
      assert forall c <- text[1..] :: c in text;
      ReplacedIsSafe(text[1..], !(IsWord(text[0]) || text[0] == '-'));
    }
  }

  lemma {:induction false} CollapsedIsSingle(text: string, afterDash: bool)
    ensures forall c <- CollapseDashes(text, afterDash) :: c in text || c == '-'
    ensures NoDoubleDash(CollapseDashes(text, afterDash))
    ensures afterDash && CollapseDashes(text, afterDash) != "" ==> CollapseDashes(text, afterDash)[0] != '-'
  {
    if text != "" {
      CollapsedIsSingle(text[1..], text[0] == '-');
      var rest := CollapseDashes(text[1..], text[0] == '-');
      var first := if text[0] != '-' then [text[0]] else if afterDash then "" else "-";
      assert CollapseDashes(text, afterDash) == first + rest;
      assert first != "" ==> forall i :: 0 < i < |first + rest| ==> (first + rest)[i] == rest[i - 1];
    }
  }

  lemma {:induction false} TrimStartIs(text: string)
    ensures exists n :: 0 <= n <= |text| && TrimStart(text) == text[n..]
    ensures TrimStart(text) != "" ==> !IsEdge(TrimStart(text)[0])
  {
    if text != "" && IsEdge(text[0]) {
      TrimStartIs(text[1..]);
      var n :| 0 <= n <= |text[1..]| && TrimStart(text[1..]) == text[1..][n..];
      assert text[1..][n..] == text[n + 1..];
    } else {
      assert text[0..] == text;
    }
  }

  lemma {:induction false} TrimEndIs(text: string)
    ensures TrimEnd(text) <= text
    ensures TrimEnd(text) != "" ==> !IsEdge(TrimEnd(text)[|TrimEnd(text)| - 1])
  {
    if text != "" && IsEdge(text[|text| - 1]) {
      TrimEndIs(text[..|text| - 1]);
    }
  }

  /** What a part of a text keeps. */
  lemma PartKeeps(text: string, from: nat, to: nat)
    requires from <= to <= |text|
    ensures SafeChars(text) ==> SafeChars(text[from..to])
    ensures IsLower(text) ==> IsLower(text[from..to])
    ensures NoDoubleDash(text) ==> NoDoubleDash(text[from..to])
  {
    assert forall c <- text[from..to] :: c in text;
  }

  predicate CleanText(text: string) {
    SafeChars(text) && IsLower(text) && NoDoubleDash(text)
  }

  lemma TrimStartKeeps(text: string)
    requires CleanText(text)
    ensures CleanText(TrimStart(text)) && (TrimStart(text) != "" ==> !IsEdge(TrimStart(text)[0]))
  {
    TrimStartIs(text);
    var n :| 0 <= n <= |text| && TrimStart(text) == text[n..];
    PartKeeps(text, n, |text|);
    assert text[n..] == text[n..|text|];
  }

  /** A beginning of a clean text that did not start at an edge. */
  lemma BeginningKeeps(text: string, part: string)
    requires CleanText(text) && part <= text && (text != "" ==> !IsEdge(text[0]))
    ensures CleanText(part) && (part != "" ==> !IsEdge(part[0]))
  {
    PartKeeps(text, 0, |part|);
    assert part == text[0..|part|];
  }

  /** The segment of every thread id fits the pattern, is at most 80 characters long, and is never the
      one that marks pending uploads. */
  lemma SegmentIsSafe(lowered: string)
    requires IsLower(lowered)
    ensures var segment := ThreadSegment(lowered);
      segment.Some? ==> IsSegment(segment.value) && IsLower(segment.value) && |segment.value| <= THREAD_SEGMENT_MAX_CHARS && segment.value != PENDING
  {
    ReplacedIsSafe(lowered, false);
    var replaced := ReplaceRuns(lowered, false);
    CollapsedIsSingle(replaced, false);
    var collapsed := CollapseDashes(replaced, false);
    assert CleanText(collapsed);
    TrimStartKeeps(collapsed);
    var started := TrimStart(collapsed);
    TrimEndIs(started);
    BeginningKeeps(started, TrimEnd(started));
    var shortened := Shortened(TrimEnd(started));
    BeginningKeeps(TrimEnd(started), shortened);
    TrimEndIs(shortened);
    BeginningKeeps(shortened, TrimEnd(shortened));
    var segment := TrimEnd(shortened);
    assert |segment| <= THREAD_SEGMENT_MAX_CHARS;
    if segment == PENDING {
      assert IsSegment("_" + PENDING);
    }
  }

  /** A letter or digit. */
  predicate IsSolid(c: char) { IsWord(c) && c != '_' }

  predicate HasSolid(text: string) { exists c <- text :: IsSolid(c) }

  lemma {:induction false} ReplacedHasSolid(text: string, inRun: bool)
    ensures HasSolid(ReplaceRuns(text, inRun)) <==> HasSolid(text)
  {
    if text != "" {
      var word := IsWord(text[0]) || text[0] == '-';
      ReplacedHasSolid(text[1..], !word);
      assert text == [text[0]] + text[1..];
      var first := if word then [text[0]] else if inRun then "" else "-";
      assert ReplaceRuns(text, inRun) == first + ReplaceRuns(text[1..], !word);
      HasSolidAppend([text[0]], text[1..]);
      HasSolidAppend(first, ReplaceRuns(text[1..], !word));
      assert text[0] in [text[0]];
    }
  }

  lemma HasSolidAppend(a: string, b: string)
    ensures HasSolid(a + b) <==> HasSolid(a) || HasSolid(b)
  {
    assert forall c :: c in a + b <==> c in a || c in b;
  }

  lemma {:induction false} CollapsedHasSolid(text: string, afterDash: bool)
    ensures HasSolid(CollapseDashes(text, afterDash)) <==> HasSolid(text)
  {
    if text != "" {
      CollapsedHasSolid(text[1..], text[0] == '-');
      assert text == [text[0]] + text[1..];
      var first := if text[0] != '-' then [text[0]] else if afterDash then "" else "-";
      assert CollapseDashes(text, afterDash) == first + CollapseDashes(text[1..], text[0] == '-');
      HasSolidAppend([text[0]], text[1..]);
      HasSolidAppend(first, CollapseDashes(text[1..], text[0] == '-'));
    }
  }

  lemma {:induction false} TrimStartHasSolid(text: string)
    ensures HasSolid(TrimStart(text)) <==> HasSolid(text)
  {
    if text != "" && IsEdge(text[0]) {
      TrimStartHasSolid(text[1..]);
      assert text == [text[0]] + text[1..];
      HasSolidAppend([text[0]], text[1..]);
    }
  }

  lemma {:induction false} TrimEndHasSolid(text: string)
    ensures HasSolid(TrimEnd(text)) <==> HasSolid(text)
  {
    if text != "" && IsEdge(text[|text| - 1]) {
      TrimEndHasSolid(text[..|text| - 1]);
      assert text == text[..|text| - 1] + [text[|text| - 1]];
      HasSolidAppend(text[..|text| - 1], [text[|text| - 1]]);
    }
  }

  lemma BeginsSolid(text: string)
    requires SafeChars(text)
    ensures text != "" && !IsEdge(text[0]) ==> HasSolid(text)
  {
    if text != "" {
      assert text[0] in text;
    }
  }

  /** A thread id has a segment exactly when it has a letter or a digit. */
  lemma SegmentExistsExactly(lowered: string)
    requires IsLower(lowered)
    ensures ThreadSegment(lowered).Some? <==> HasSolid(lowered)
  {
    ReplacedIsSafe(lowered, false);
    ReplacedHasSolid(lowered, false);
    var replaced := ReplaceRuns(lowered, false);
    CollapsedIsSingle(replaced, false);
    CollapsedHasSolid(replaced, false);
    var collapsed := CollapseDashes(replaced, false);
    TrimStartKeeps(collapsed);
    TrimStartHasSolid(collapsed);
    var started := TrimStart(collapsed);
    TrimEndIs(started);
    TrimEndHasSolid(started);
    BeginningKeeps(started, TrimEnd(started));
    var shortened := Shortened(TrimEnd(started));
    BeginningKeeps(TrimEnd(started), shortened);
    BeginsSolid(shortened);
    assert HasSolid(TrimEnd(started)) ==> shortened != "";
    TrimEndHasSolid(shortened);
    TrimEndIs(shortened);
    BeginningKeeps(shortened, TrimEnd(shortened));
    BeginsSolid(TrimEnd(shortened));
    assert !HasSolid("");
  }

  // What the segment is, character by character.

  /** Every run of characters that are no word characters, dashes or not, becomes one dash. */
  function Dashed(text: string, inRun: bool): string {
    if text == "" then ""
    else if IsWord(text[0]) then [text[0]] + Dashed(text[1..], false)
    else (if inRun then "" else "-") + Dashed(text[1..], true)
  }

  /** The two replacements are that one pass. */
  lemma {:induction false} ReplacingIsDashing(text: string, inRun: bool, afterDash: bool)
    requires inRun ==> afterDash
    ensures CollapseDashes(ReplaceRuns(text, inRun), afterDash) == Dashed(text, afterDash)
  {
    if text != "" {
      if IsWord(text[0]) || text[0] == '-' {
        var rest := ReplaceRuns(text[1..], false);
        assert ([text[0]] + rest)[1..] == rest;
        ReplacingIsDashing(text[1..], false, text[0] == '-');
      } else {
        var rest := ReplaceRuns(text[1..], true);
        assert ("-" + rest)[1..] == rest && "" + rest == rest;
        ReplacingIsDashing(text[1..], true, true);
      }
    }
  }

  lemma {:induction false} TrimStartIsExact(text: string) returns (from: nat)
    ensures from <= |text| && TrimStart(text) == text[from..]
    ensures (forall i :: 0 <= i < from ==> IsEdge(text[i])) && (from < |text| ==> !IsEdge(text[from]))
  {
    from := 0;
    if text != "" && IsEdge(text[0]) {
      var n := TrimStartIsExact(text[1..]);
      from := n + 1;
      assert forall i :: 0 < i < from ==> text[i] == text[1..][i - 1];
    }
  }

  lemma {:induction false} TrimEndIsExact(text: string) returns (to: nat)
    ensures to <= |text| && TrimEnd(text) == text[..to]
    ensures (forall i :: to <= i < |text| ==> IsEdge(text[i])) && (to > 0 ==> !IsEdge(text[to - 1]))
  {
    to := |text|;
    if text != "" && IsEdge(text[|text| - 1]) {
      to := TrimEndIsExact(text[..|text| - 1]);
      assert text[..to] == text[..|text| - 1][..to];
    }
  }

  /** The part of a text that a segment is cut from: from the first character that is no edge, at most 80 of
      them, up to the last that is no edge. */
  predicate IsCut(text: string, from: nat, to: nat) {
    && from <= to <= |text| && to - from <= 80
    && (forall i :: 0 <= i < from ==> IsEdge(text[i]))
    && (forall i :: to <= i < |text| && i < from + 80 ==> IsEdge(text[i]))
    && (from < to ==> !IsEdge(text[from]) && !IsEdge(text[to - 1]))
  }

  lemma TrimmedIsCut(text: string) returns (from: nat, to: nat)
    ensures IsCut(text, from, to) && TrimEnd(Shortened(TrimEnd(TrimStart(text)))) == text[from..to]
  {
    from := TrimStartIsExact(text);
    var started := TrimStart(text);
    var end := TrimEndIsExact(started);
    var shortened := Shortened(TrimEnd(started));
    var last := TrimEndIsExact(shortened);
    to := from + last;
    assert shortened == started[..|shortened|];
    assert shortened[..last] == started[..last] == text[from..to];
    assert forall i :: 0 <= i < |started| ==> started[i] == text[from + i];
    forall i | to <= i < |text| && i < from + 80
      ensures IsEdge(text[i])
    {
      assert started[i - from] == text[i];
      if i - from < |shortened| {
        assert shortened[i - from] == text[i];
      }
    }
  }

  /** The segment is the cut of the dashed thread id, with an underscore before it if it is the pending one. */
  lemma SegmentIs(lowered: string) returns (from: nat, to: nat)
    ensures var dashed := Dashed(lowered, false);
      && IsCut(dashed, from, to)
      && ThreadSegment(lowered) == if from == to then None else if dashed[from..to] == "pending" then Some("_pending") else Some(dashed[from..to])
  {
    ReplacingIsDashing(lowered, false, false);
    from, to := TrimmedIsCut(Dashed(lowered, false));
    assert "_" + PENDING == "_pending";
  }

  /** A text has one cut. */
  lemma CutIsUnique(text: string, from: nat, to: nat, from': nat, to': nat)
    requires IsCut(text, from, to) && IsCut(text, from', to') && from < to && from' < to'
    ensures from == from' && to == to'
  {
  }

  lemma {:induction false} DashedIsItself(text: string, inRun: bool)
    requires SafeChars(text) && NoDoubleDash(text) && (inRun && text != "" ==> text[0] != '-')
    ensures Dashed(text, inRun) == text
  {
    if text != "" {
      assert text[0] in text;
      assert forall c <- text[1..] :: c in text;
      forall i | 0 < i < |text[1..]|
        ensures !(text[1..][i - 1] == '-' && text[1..][i] == '-')
      {
        assert text[1..][i - 1] == text[i] && text[1..][i] == text[i + 1];
      }
      assert |text| > 1 ==> !(text[0] == '-' && text[1] == '-');
      DashedIsItself(text[1..], !IsWord(text[0]));
      assert text == [text[0]] + text[1..];
    }
  }

  /** A thread id that is a segment already, of at most 80 characters and no underscore at its ends, is its own
      segment; only the pending one is changed. */
  lemma SegmentIsItself(lowered: string)
    requires IsSegment(lowered) && IsLower(lowered) && |lowered| <= 80 && lowered[0] != '_' && lowered[|lowered| - 1] != '_'
    ensures ThreadSegment(lowered) == Some(if lowered == "pending" then "_pending" else lowered)
  {
    DashedIsItself(lowered, false);
    var from, to := SegmentIs(lowered);
    assert !IsEdge(lowered[0]) && !IsEdge(lowered[|lowered| - 1]);
    assert lowered[0..|lowered|] == lowered;
  }

  /** An underscore in front is cut off again, and put back before the pending one. */
  lemma UnderscoreIsCut(text: string)
    requires IsSegment(text) && IsLower(text) && |text| <= 80 && text[0] != '_' && text[|text| - 1] != '_'
    ensures ThreadSegment("_" + text) == Some(if text == "pending" then "_pending" else text)
  {
    var whole := "_" + text;
    DashedIsItself(text, false);
    assert whole[0] == '_' && whole[1..] == text;
    assert Dashed(whole, false) == whole;
    var from, to := SegmentIs(whole);
    assert whole[1] == text[0] && !IsEdge(whole[1]);
    assert whole[|text|] == text[|text| - 1];
    CutIsUnique(whole, 1, |whole|, from, to);
    assert whole[1..|whole|] == text;
  }

  /** Taking the segment of a segment changes nothing. */
  lemma SegmentIsIdempotent(lowered: string)
    requires IsLower(lowered) && ThreadSegment(lowered).Some?
    ensures ThreadSegment(ThreadSegment(lowered).value) == ThreadSegment(lowered)
  {
    var segment := ThreadSegment(lowered).value;
    var from, to := SegmentIs(lowered);
    if segment == "_pending" {
      assert IsSegment("pending") && "_" + "pending" == "_pending";
      UnderscoreIsCut("pending");
    } else {
      SegmentIsSafe(lowered);
      assert segment == Dashed(lowered, false)[from..to];
      SegmentIsItself(segment);
    }
  }

  // ----- The id -----

  predicate IsHex(c: char) { '0' <= c <= '9' || 'a' <= c <= 'f' || 'A' <= c <= 'F' }

  const UUID_LENGTH: nat := 36

  /** Groups of 8, 4, 4, 4 and 12 hexadecimal digits. */
  predicate IsUuid(text: string) {
    && |text| == UUID_LENGTH
    && forall i :: 0 <= i < UUID_LENGTH ==> if i in {8, 13, 18, 23} then text[i] == '-' else IsHex(text[i])
  }

  predicate IsExtension(text: string) {
    1 <= |text| <= 10 && forall c <- text :: IsWord(c) && c != '_'
  }

  /** The three groups of the id pattern. */
  datatype Parts = Parts(segment: string, uuid: string, extension: Option<string>) {
    predicate Valid() {
      IsSegment(segment) && IsUuid(uuid) && (extension.Some? ==> IsExtension(extension.value))
    }

    function Text(): string {
      segment + "-" + uuid + if extension.Some? then "-" + extension.value else ""
    }
  }

  function Undashed(text: string): (n: nat)
    ensures n <= |text|
  {
    if text == "" || text[|text| - 1] == '-' then 0 else 1 + Undashed(text[..|text| - 1])
  }

  /** An id without an extension. */
  function SplitPlain(id: string): Option<Parts> {
    if |id| <= UUID_LENGTH + 1 then None
    else
      var at := |id| - UUID_LENGTH;
      if id[at - 1] == '-' && IsUuid(id[at..]) && IsSegment(id[..at - 1]) then Some(Parts(id[..at - 1], id[at..], None)) else None
  }

  /** The pattern's match: a last group of 12 digits ends the UUID, one of at most 10 characters is an
      extension. */
  function Split(id: string): Option<Parts> {
    var n := Undashed(id);
    if n == |id| then None
    else if n <= 10 then
      var plain := SplitPlain(id[..|id| - n - 1]);
      if plain.Some? && IsExtension(id[|id| - n..]) then Some(plain.value.(extension := Some(id[|id| - n..]))) else None
    else SplitPlain(id)
  }

  lemma {:induction false} UndashedIs(text: string, tail: string)
    requires '-' !in tail
    ensures Undashed(text + "-" + tail) == |tail|
  {
    var whole := text + "-" + tail;
    if tail == "" {
      assert whole[|whole| - 1] == '-';
    } else {
      assert whole[|whole| - 1] == tail[|tail| - 1];
      assert tail[|tail| - 1] in tail;
      assert whole[..|whole| - 1] == text + "-" + tail[..|tail| - 1];
      UndashedIs(text, tail[..|tail| - 1]);
    }
  }

  lemma PlainIsRead(segment: string, uuid: string)
    requires IsSegment(segment) && IsUuid(uuid)
    ensures SplitPlain(segment + "-" + uuid) == Some(Parts(segment, uuid, None))
  {
    var id := segment + "-" + uuid;
    assert id[..|segment|] == segment && id[|segment| + 1..] == uuid;
  }

  lemma UuidEnds(segment: string, uuid: string)
    requires IsUuid(uuid)
    ensures Undashed(segment + "-" + uuid) == 12
  {
    var head, tail := uuid[..23], uuid[24..];
    assert segment + "-" + uuid == (segment + "-" + head) + "-" + tail;
    assert forall i :: 0 <= i < |tail| ==> tail[i] == uuid[i + 24];
    UndashedIs(segment + "-" + head, tail);
  }

  /** Reading back what the pattern put together. */
  lemma SplitReadsText(parts: Parts)
    requires parts.Valid()
    ensures Split(parts.Text()) == Some(parts)
  {
    var plain := parts.segment + "-" + parts.uuid;
    PlainIsRead(parts.segment, parts.uuid);
    if parts.extension.Some? {
      var extension := parts.extension.value;
      UndashedIs(plain, extension);
      assert parts.Text() == plain + "-" + extension;
      assert parts.Text()[..|plain|] == plain && parts.Text()[|plain| + 1..] == extension;
    } else {
      UuidEnds(parts.segment, parts.uuid);
      assert parts.Text() == plain;
    }
  }

  lemma SplitPlainIsText(id: string)
    ensures SplitPlain(id).Some? ==> SplitPlain(id).value.Valid() && SplitPlain(id).value.Text() == id
  {
    if SplitPlain(id).Some? {
      var at := |id| - UUID_LENGTH;
      assert id == id[..at - 1] + "-" + id[at..];
    }
  }

  lemma {:induction false} UndashedStops(text: string)
    ensures Undashed(text) < |text| ==> text[|text| - Undashed(text) - 1] == '-'
  {
    if text != "" && text[|text| - 1] != '-' {
      UndashedStops(text[..|text| - 1]);
    }
  }

  lemma ExtendedIsText(id: string, n: nat)
    requires n < |id| && id[|id| - n - 1] == '-'
    requires SplitPlain(id[..|id| - n - 1]).Some? && IsExtension(id[|id| - n..])
    ensures var parts := SplitPlain(id[..|id| - n - 1]).value.(extension := Some(id[|id| - n..])); parts.Valid() && parts.Text() == id
  {
    SplitPlainIsText(id[..|id| - n - 1]);
    assert id == id[..|id| - n - 1] + "-" + id[|id| - n..];
  }

  lemma SplitIsText(id: string)
    ensures Split(id).Some? ==> Split(id).value.Valid() && Split(id).value.Text() == id
  {
    if Split(id).Some? {
      var n := Undashed(id);
      UndashedStops(id);
      if n <= 10 {
        ExtendedIsText(id, n);
      } else {
        SplitPlainIsText(id);
      }
    }
  }

  /** The pattern is unambiguous: an id is the text of valid parts exactly when splitting it finds those
      parts, so no id has two readings. */
  lemma SplitIsExact(id: string, parts: Parts)
    ensures Split(id) == Some(parts) <==> parts.Valid() && parts.Text() == id
  {
    if parts.Valid() && parts.Text() == id {
      SplitReadsText(parts);
    }
    SplitIsText(id);
  }

  // ----- Creating and parsing -----

  function LowerChar(c: char): char {
    if IsUpper(c) then ((c as int) - ('A' as int) + ('a' as int)) as char else c
  }

  function Lower(text: string): string {
    seq(|text|, i requires 0 <= i < |text| => LowerChar(text[i]))
  }

  lemma LowerOfLower(text: string)
    requires IsLower(text)
    ensures Lower(text) == text
  {
    assert forall i :: 0 <= i < |text| ==> text[i] in text;
  }

  function WithoutDot(extension: string): string {
    if extension != "" && extension[0] == '.' then extension[1..] else extension
  }

  /** The extension an id carries for a file extension in lower case; none if there is none. */
  function IdExtension(extension: Option<string>): Option<string> {
    if extension.None? || extension.value == "" then None
    else if IsExtension(WithoutDot(extension.value)) then Some(WithoutDot(extension.value))
    else Some("bin")
  }

  function IdOf(segment: string, uuid: string, extension: Option<string>): string {
    Parts(segment, uuid, IdExtension(extension)).Text()
  }

  /** `createAttachmentId`. */
  function CreateId(lowered: string, uuid: string, extension: Option<string>): Option<string> {
    var segment := ThreadSegment(lowered);
    if segment.None? then None else Some(IdOf(segment.value, uuid, extension))
  }

  /** `parseThreadSegmentFromAttachmentId`, `parseAttachmentUuid` and `parseAttachmentFileExtension`. */
  function ParseSegment(id: string): Option<string> {
    if Split(id).Some? then Some(Lower(Split(id).value.segment)) else None
  }

  function ParseUuid(id: string): Option<string> {
    if Split(id).Some? then Some(Lower(Split(id).value.uuid)) else None
  }

  function ParseExtension(id: string): Option<string> {
    if Split(id).Some? && Split(id).value.extension.Some? then Some(Lower(Split(id).value.extension.value)) else None
  }

  predicate LoweredUuid(uuid: string) { IsUuid(uuid) && IsLower(uuid) }

  predicate LoweredExtension(extension: Option<string>) { extension.Some? ==> IsLower(extension.value) }

  lemma IdExtensionIsValid(extension: Option<string>)
    requires LoweredExtension(extension)
    ensures var e := IdExtension(extension); e.Some? ==> IsExtension(e.value) && IsLower(e.value)
  {
    if extension.Some? && extension.value != "" {
      assert forall c <- WithoutDot(extension.value) :: c in extension.value;
    }
  }

  /** Parsing a created id gives back exactly its segment, UUID and extension. */
  lemma IdReadsBack(segment: string, uuid: string, extension: Option<string>)
    requires IsSegment(segment) && IsLower(segment) && LoweredUuid(uuid) && LoweredExtension(extension)
    ensures var id := IdOf(segment, uuid, extension);
      && Split(id) == Some(Parts(segment, uuid, IdExtension(extension)))
      && ParseSegment(id) == Some(segment) && ParseUuid(id) == Some(uuid) && ParseExtension(id) == IdExtension(extension)
  {
    IdExtensionIsValid(extension);
    SplitReadsText(Parts(segment, uuid, IdExtension(extension)));
    LowerOfLower(segment);
    LowerOfLower(uuid);
    if IdExtension(extension).Some? {
      LowerOfLower(IdExtension(extension).value);
    }
  }

  /** An id carries a file's extension, with or without its dot, exactly if it fits the pattern; any other is
      carried as "bin", and none as none. */
  lemma IdExtensionIs(extension: string)
    ensures IdExtension(None) == None && IdExtension(Some("")) == None
    ensures IsExtension(extension) ==> IdExtension(Some(extension)) == Some(extension) && IdExtension(Some("." + extension)) == Some(extension)
    ensures extension != "" && !IsExtension(extension) && extension[0] != '.' ==> IdExtension(Some(extension)) == Some("bin")
    ensures !IsExtension(extension) ==> IdExtension(Some("." + extension)) == Some("bin")
  {
    assert ("." + extension)[1..] == extension;
    assert IsExtension(extension) ==> extension[0] in extension;
  }

  /** For every thread id that has a letter or a digit. */
  lemma CreatedIdReadsBack(lowered: string, uuid: string, extension: Option<string>)
    requires IsLower(lowered) && LoweredUuid(uuid) && LoweredExtension(extension)
    ensures CreateId(lowered, uuid, extension).Some? <==> HasSolid(lowered)
    ensures var id := CreateId(lowered, uuid, extension);
      id.Some? ==>
        && ParseSegment(id.value) == ThreadSegment(lowered) && ParseUuid(id.value) == Some(uuid)
        && ParseExtension(id.value) == IdExtension(extension) && ParseSegment(id.value) != Some(PENDING)
  {
    SegmentExistsExactly(lowered);
    SegmentIsSafe(lowered);
    if ThreadSegment(lowered).Some? {
      IdReadsBack(ThreadSegment(lowered).value, uuid, extension);
    }
  }

  // ----- Files -----

  const PART := "part"

  /** `attachmentFileExtension`, of an extension in lower case: never the one of partial uploads. */
  function FileExtension(extension: string): string {
    if extension == "." + PART || extension == "" || extension[0] != '.' || !IsExtension(extension[1..]) then "bin" else extension[1..]
  }

  predicate StoresAs(extension: string) {
    IsExtension(extension) && extension != PART
  }

  /** A stored file keeps its own extension exactly if that fits the pattern and is not the one of partial
      uploads; otherwise it is stored as "bin". */
  lemma FileExtensionStores(extension: string)
    ensures StoresAs(FileExtension(extension))
    ensures FileExtension(extension) == if extension != "" && extension[0] == '.' && StoresAs(extension[1..]) then extension[1..] else "bin"
  {
    assert "." + PART == ['.'] + PART;
    assert extension != "" ==> extension == [extension[0]] + extension[1..];
  }

  function LastDot(name: string): int {
    if name == "" then -1
    else if name[|name| - 1] == '.' then |name| - 1
    else LastDot(name[..|name| - 1])
  }

  lemma {:induction false} LastDotIs(id: string, extension: string)
    requires '.' !in extension
    ensures LastDot(id + "." + extension) == |id|
  {
    var name := id + "." + extension;
    if extension == "" {
      assert name[|name| - 1] == '.';
    } else {
      assert name[|name| - 1] == extension[|extension| - 1];
      assert extension[|extension| - 1] in extension;
      assert name[..|name| - 1] == id + "." + extension[..|extension| - 1];
      LastDotIs(id, extension[..|extension| - 1]);
    }
  }

  /** `parseAttachmentIdFromRelativePath`, of a bare file name. */
  function IdInName(name: string): Option<string> {
    var at := LastDot(name);
    if at <= 0 || at > |name| then None
    else if '.' in name[..at] then None else Some(name[..at])
  }

  predicate IsPartial(name: string) {
    |name| >= 5 && name[|name| - 5..] == "." + PART
  }

  predicate IsPendingUpload(name: string) {
    IdInName(name).Some? && ParseSegment(IdInName(name).value) == Some(PENDING)
  }

  predicate Sweepable(name: string) { IsPartial(name) || IsPendingUpload(name) }

  function MaxAge(name: string): int {
    if IsPartial(name) then PARTIAL_MAX_AGE_MS else PENDING_MAX_AGE_MS
  }

  predicate Expired(name: string, modified: int, now: int) {
    Sweepable(name) && now - modified > MaxAge(name)
  }

  function NameOf(id: string, extension: string): string { id + "." + extension }

  lemma ValidIdHasNoDot(parts: Parts)
    requires parts.Valid()
    ensures '.' !in parts.Text() && parts.Text() != ""
  {
    assert forall c <- parts.uuid :: c != '.' by {
      assert forall i :: 0 <= i < UUID_LENGTH ==> parts.uuid[i] != '.';
    }
  }

  /** A name ends in the partial suffix exactly when that is its extension. */
  lemma PartialNames(id: string, extension: string)
    requires '.' !in extension
    ensures IsPartial(NameOf(id, extension)) <==> extension == PART
  {
    var name := NameOf(id, extension);
    LastDotIs(id, extension);
    if IsPartial(name) {
      var front := name[..|name| - 5];
      assert name == front + ("." + PART) && front + ("." + PART) == front + "." + PART;
      LastDotIs(front, PART);
      assert extension == name[|id| + 1..] && PART == name[|front| + 1..];
    }
    if extension == PART {
      assert name[|name| - 5..] == "." + PART;
    }
  }

  /** What the sweep makes of a stored file: only the segment decides. */
  lemma NameIsClassified(parts: Parts, extension: string)
    requires parts.Valid() && StoresAs(extension)
    ensures IdInName(NameOf(parts.Text(), extension)) == Some(parts.Text())
    ensures !IsPartial(NameOf(parts.Text(), extension))
    ensures Sweepable(NameOf(parts.Text(), extension)) <==> Lower(parts.segment) == PENDING
  {
    var name := NameOf(parts.Text(), extension);
    ValidIdHasNoDot(parts);
    assert '.' !in extension;
    LastDotIs(parts.Text(), extension);
    assert name[..|parts.Text()|] == parts.Text();
    SplitReadsText(parts);
    PartialNames(parts.Text(), extension);
  }

  /** A file stored for a thread is never swept, however old. */
  lemma StoredIsNeverSwept(lowered: string, uuid: string, extension: Option<string>, fileExtension: string)
    requires IsLower(lowered) && LoweredUuid(uuid) && LoweredExtension(extension) && StoresAs(fileExtension)
    requires CreateId(lowered, uuid, extension).Some?
    ensures !Sweepable(NameOf(CreateId(lowered, uuid, extension).value, fileExtension))
  {
    SegmentIsSafe(lowered);
    IdExtensionIsValid(extension);
    LowerOfLower(ThreadSegment(lowered).value);
    NameIsClassified(Parts(ThreadSegment(lowered).value, uuid, IdExtension(extension)), fileExtension);
  }

  /** A pending upload is, once it is a day old; so is a partial one, once it is an hour old. */
  lemma PendingIsSwept(uuid: string, extension: Option<string>, fileExtension: string, modified: int, now: int)
    requires LoweredUuid(uuid) && LoweredExtension(extension) && StoresAs(fileExtension)
    ensures Expired(NameOf(IdOf(PENDING, uuid, extension), fileExtension), modified, now) <==> now - modified > 86_400_000
    ensures Expired(NameOf(IdOf(PENDING, uuid, extension), fileExtension) + "." + PART, modified, now) <==> now - modified > 3_600_000
  {
    IdExtensionIsValid(extension);
    LowerOfLower(PENDING);
    NameIsClassified(Parts(PENDING, uuid, IdExtension(extension)), fileExtension);
    PartialNames(NameOf(IdOf(PENDING, uuid, extension), fileExtension), PART);
  }

  /** The files a sweep over those names leaves. */
  function Remaining(files: map<string, int>, names: seq<string>, now: int, stuck: set<string>): map<string, int> {
    map name | name in files && !(name in names && Expired(name, files[name], now) && name !in stuck) :: files[name]
  }

  lemma AllRemain(files: map<string, int>, now: int, stuck: set<string>)
    ensures Remaining(files, [], now, stuck) == files
  {
  }

  lemma RemainingStep(files: map<string, int>, names: seq<string>, name: string, now: int, stuck: set<string>)
    requires name in files && name !in names
    ensures name in Remaining(files, names, now, stuck) && Remaining(files, names, now, stuck)[name] == files[name]
    ensures Remaining(files, names + [name], now, stuck)
         == if Expired(name, files[name], now) && name !in stuck then Remaining(files, names, now, stuck) - {name}
            else Remaining(files, names, now, stuck)
  {
    assert forall other :: other in names + [name] <==> other in names || other == name;
  }

  class AttachmentsDirectory {
    /** Each file's modification time. */
    var files: map<string, int>

    constructor (files: map<string, int>)
      ensures this.files == files
    {
      this.files := files;
    }

    /** `sweepStalePendingAttachments` over the listed entries. `stuck` are the files whose age cannot be
        read or that cannot be deleted; they are passed over. */
    method SweepStale(entries: seq<string>, now: int, stuck: set<string>) returns (deleted: nat)
      requires forall i, j :: 0 <= i < j < |entries| ==> entries[i] != entries[j]
      requires forall entry <- entries :: entry in files
      modifies this
      ensures files == Remaining(old(files), entries, now, stuck)
      ensures deleted == |old(files)| - |files|
    {
      deleted := 0;
      AllRemain(files, now, stuck);
      for k := 0 to |entries|
        invariant files == Remaining(old(files), entries[..k], now, stuck)
        invariant deleted == |old(files)| - |files|
      {
        var entry := entries[k];
        assert entries[..k + 1] == entries[..k] + [entry] && entry !in entries[..k];
        RemainingStep(old(files), entries[..k], entry, now, stuck);
        var partial := IsPartial(entry);
        if !partial {
          var id := IdInName(entry);
          if id.None? || ParseSegment(id.value) != Some(PENDING) {
            continue;
          }
        }
        var maxAge := if partial then PARTIAL_MAX_AGE_MS else PENDING_MAX_AGE_MS;
        if entry !in stuck && now - files[entry] > maxAge {
          RemovingOne(files, entry);
          files := files - {entry};
          deleted := deleted + 1;
        }
      }
      assert entries[..|entries|] == entries;
    }
  }

  lemma RemovingOne(files: map<string, int>, name: string)
    requires name in files
    ensures |files - {name}| == |files| - 1
  {
    assert (files - {name}).Keys == files.Keys - {name};
    assert |(files - {name}).Keys| == |files - {name}| && |files.Keys| == |files|;
  }

  // ----- Claiming a pending upload for a thread -----

  const STORED_EXTENSIONS := ["avif", "bmp", "gif", "heic", "heif", "ico", "jpeg", "jpg", "png", "svg", "tiff", "webp", "bin"]

  function FirstStored(names: set<string>, id: string, extensions: seq<string>): Option<string> {
    if extensions == [] then None
    else if NameOf(id, extensions[0]) in names then Some(NameOf(id, extensions[0]))
    else FirstStored(names, id, extensions[1..])
  }

  /** `resolveAttachmentPathById`, of an id that fits the pattern. */
  function ResolveById(names: set<string>, id: string): Option<string> {
    var extension := ParseExtension(id);
    if extension.Some? then
      if NameOf(id, extension.value) in names then Some(NameOf(id, extension.value)) else None
    else FirstStored(names, id, STORED_EXTENSIONS)
  }

  datatype ClaimError = InvalidAttachmentId | InvalidThreadId | NotPending | NotFound

  datatype Claim = Claim(finalId: string, currentName: string, finalName: string)

  function ExtensionIn(name: string): string {
    if 0 <= LastDot(name) < |name| then name[LastDot(name) + 1..] else ""
  }

  /** `planAttachmentClaim`. */
  function PlanClaim(names: set<string>, lowered: string, id: string, uuid: string): Result<Claim, ClaimError> {
    if Split(id).None? then Err(InvalidAttachmentId)
    else if ThreadSegment(lowered).None? then Err(InvalidThreadId)
    else if ParseSegment(id) != Some(PENDING) then Err(NotPending)
    else
      var current := ResolveById(names, id);
      if current.None? then Err(NotFound)
      else
        var finalId := CreateId(lowered, uuid, ParseExtension(id)).value;
        Ok(Claim(finalId, current.value, NameOf(finalId, ExtensionIn(current.value))))
  }

  lemma {:induction false} FirstStoredIs(names: set<string>, id: string, extensions: seq<string>)
    ensures FirstStored(names, id, extensions).Some? ==>
      exists e <- extensions :: FirstStored(names, id, extensions).value == NameOf(id, e) && NameOf(id, e) in names
  {
    if extensions != [] && NameOf(id, extensions[0]) !in names {
      FirstStoredIs(names, id, extensions[1..]);
    }
  }

  lemma {:induction false} OnlyStoredIsFirst(names: set<string>, id: string, extensions: seq<string>, extension: string)
    requires extension in extensions && NameOf(id, extension) in names
    requires forall e <- extensions :: NameOf(id, e) in names ==> e == extension
    ensures FirstStored(names, id, extensions) == Some(NameOf(id, extension))
  {
    if extensions[0] != extension {
      assert extensions == [extensions[0]] + extensions[1..];
      OnlyStoredIsFirst(names, id, extensions[1..], extension);
    }
  }

  lemma StoredExtensionsStore()
    ensures forall e <- STORED_EXTENSIONS :: StoresAs(e) && IsLower(e)
  {
  }

  lemma LowerIsLower(text: string)
    ensures IsLower(Lower(text))
    ensures IsExtension(text) ==> IsExtension(Lower(text))
  {
    forall c <- Lower(text)
      ensures !IsUpper(c) && (IsExtension(text) ==> IsWord(c) && c != '_')
    {
      var i :| 0 <= i < |text| && Lower(text)[i] == c;
      assert text[i] in text;
    }
  }

  /** The extension of the file a valid id resolves to: its own, or one of those stored. */
  lemma ResolvedExtension(names: set<string>, parts: Parts)
    requires parts.Valid() && ResolveById(names, parts.Text()).Some?
    ensures var name := ResolveById(names, parts.Text()).value;
      var e := ExtensionIn(name);
      && name == NameOf(parts.Text(), e) && name in names && IsExtension(e) && IsLower(e)
      && (if parts.extension.Some? then e == Lower(parts.extension.value) else e in STORED_EXTENSIONS)
  {
    SplitReadsText(parts);
    var id := parts.Text();
    if parts.extension.Some? {
      LowerIsLower(parts.extension.value);
      LastDotIs(id, Lower(parts.extension.value));
    } else {
      StoredExtensionsStore();
      FirstStoredIs(names, id, STORED_EXTENSIONS);
      var e :| e in STORED_EXTENSIONS && ResolveById(names, id).value == NameOf(id, e) && NameOf(id, e) in names;
      LastDotIs(id, e);
    }
  }

  lemma {:induction false} FirstStoredExactly(names: set<string>, id: string, extensions: seq<string>)
    ensures FirstStored(names, id, extensions).Some? <==> exists e <- extensions :: NameOf(id, e) in names
    ensures forall k :: 0 <= k < |extensions| && NameOf(id, extensions[k]) in names && (forall j :: 0 <= j < k ==> NameOf(id, extensions[j]) !in names) ==>
      FirstStored(names, id, extensions) == Some(NameOf(id, extensions[k]))
  {
    if extensions != [] {
      FirstStoredExactly(names, id, extensions[1..]);
      assert forall k :: 0 < k < |extensions| ==> extensions[k] == extensions[1..][k - 1];
    }
  }

  /** A valid id resolves exactly if there is a file of its extension, or of any stored one if it carries none;
      of several stored ones it is the first in their order. */
  lemma ResolvesExactly(names: set<string>, parts: Parts)
    requires parts.Valid()
    ensures ResolveById(names, parts.Text()).Some? <==>
      if parts.extension.Some? then NameOf(parts.Text(), Lower(parts.extension.value)) in names
      else exists e <- STORED_EXTENSIONS :: NameOf(parts.Text(), e) in names
    ensures parts.extension.None? ==>
      forall k :: (&& 0 <= k < |STORED_EXTENSIONS| && NameOf(parts.Text(), STORED_EXTENSIONS[k]) in names
                   && (forall j :: 0 <= j < k ==> NameOf(parts.Text(), STORED_EXTENSIONS[j]) !in names)) ==>
        ResolveById(names, parts.Text()) == Some(NameOf(parts.Text(), STORED_EXTENSIONS[k]))
  {
    SplitReadsText(parts);
    FirstStoredExactly(names, parts.Text(), STORED_EXTENSIONS);
  }

  /** When a claim is accepted, and what is wrong with one that is not. */
  lemma ClaimSucceedsExactly(names: set<string>, lowered: string, id: string, uuid: string)
    requires IsLower(lowered)
    ensures PlanClaim(names, lowered, id, uuid).Ok? <==>
      ParseSegment(id) == Some(PENDING) && HasSolid(lowered) && ResolveById(names, id).Some?
    ensures PlanClaim(names, lowered, id, uuid).Err? ==>
      PlanClaim(names, lowered, id, uuid).error ==
        if forall parts: Parts :: parts.Text() == id ==> !parts.Valid() then InvalidAttachmentId
        else if !HasSolid(lowered) then InvalidThreadId
        else if ParseSegment(id) != Some(PENDING) then NotPending else NotFound
  {
    SegmentExistsExactly(lowered);
    if Split(id).Some? {
      SplitIsText(id);
    }
    forall parts: Parts | parts.Text() == id && parts.Valid()
      ensures Split(id).Some?
    {
      SplitReadsText(parts);
    }
  }

  lemma CurrentFileIs(names: set<string>, id: string) returns (e: string)
    requires Split(id).Some? && ResolveById(names, id).Some?
    ensures ResolveById(names, id).value == NameOf(id, e) && NameOf(id, e) in names && IsExtension(e) && IsLower(e)
    ensures e == ExtensionIn(ResolveById(names, id).value)
    ensures if ParseExtension(id).Some? then e == ParseExtension(id).value else e in STORED_EXTENSIONS
  {
    SplitIsExact(id, Split(id).value);
    ResolvedExtension(names, Split(id).value);
    e := ExtensionIn(ResolveById(names, id).value);
  }

  lemma FinalIdIs(lowered: string, uuid: string, extension: Option<string>)
    requires IsLower(lowered) && LoweredUuid(uuid) && CreateId(lowered, uuid, extension).Some?
    requires extension.Some? ==> IsExtension(extension.value) && IsLower(extension.value)
    ensures var id := CreateId(lowered, uuid, extension).value;
      ParseSegment(id) == ThreadSegment(lowered) && ParseUuid(id) == Some(uuid) && ParseExtension(id) == extension
  {
    if extension.Some? {
      assert extension.value[0] in extension.value;
    }
    CreatedIdReadsBack(lowered, uuid, extension);
  }

  lemma ParsedExtensionIsLower(id: string)
    ensures ParseExtension(id).Some? ==> IsExtension(ParseExtension(id).value) && IsLower(ParseExtension(id).value)
  {
    if ParseExtension(id).Some? {
      SplitIsExact(id, Split(id).value);
      LowerIsLower(Split(id).value.extension.value);
    }
  }

  /** What an accepted claim says. */
  lemma ClaimIs(names: set<string>, lowered: string, id: string, uuid: string) returns (e: string)
    requires IsLower(lowered) && LoweredUuid(uuid) && PlanClaim(names, lowered, id, uuid).Ok?
    ensures var claim := PlanClaim(names, lowered, id, uuid).value;
      && claim.currentName == NameOf(id, e) && claim.currentName in names && claim.finalName == NameOf(claim.finalId, e)
      && IsExtension(e) && ParseSegment(claim.finalId) == ThreadSegment(lowered) && ParseUuid(claim.finalId) == Some(uuid)
      && ParseExtension(claim.finalId) == ParseExtension(id)
      && (if ParseExtension(id).Some? then e == ParseExtension(id).value else e in STORED_EXTENSIONS)
  {
    ParsedExtensionIsLower(id);
    e := CurrentFileIs(names, id);
    FinalIdIs(lowered, uuid, ParseExtension(id));
  }

  lemma NamesDiffer(id: string, e: string, other: string)
    requires NameOf(id, e) == NameOf(id, other)
    ensures e == other
  {
    assert NameOf(id, e)[|id| + 1..] == e && NameOf(id, other)[|id| + 1..] == other;
  }

  lemma OnlyFileIsFound(names: set<string>, id: string, e: string)
    requires forall other :: StoresAs(other) ==> NameOf(id, other) !in names - {NameOf(id, e)}
    requires NameOf(id, e) in names && e in STORED_EXTENSIONS
    ensures FirstStored(names, id, STORED_EXTENSIONS) == Some(NameOf(id, e))
  {
    StoredExtensionsStore();
    forall other <- STORED_EXTENSIONS | NameOf(id, other) in names
      ensures other == e
    {
      NamesDiffer(id, e, other);
    }
    OnlyStoredIsFirst(names, id, STORED_EXTENSIONS, e);
  }

  /** A claimed file is found again under its new id: the id keeps the extension, so the name it resolves
      to is the one the file was moved to. */
  lemma ClaimedIsFound(names: set<string>, lowered: string, id: string, uuid: string)
    requires IsLower(lowered) && LoweredUuid(uuid) && PlanClaim(names, lowered, id, uuid).Ok?
    requires forall e :: StoresAs(e) ==> NameOf(PlanClaim(names, lowered, id, uuid).value.finalId, e) !in names
    ensures var claim := PlanClaim(names, lowered, id, uuid).value;
      && claim.currentName in names
      && ResolveById(names - {claim.currentName} + {claim.finalName}, claim.finalId) == Some(claim.finalName)
      && ParseSegment(claim.finalId) == ThreadSegment(lowered) && ParseUuid(claim.finalId) == Some(uuid)
      && ParseExtension(claim.finalId) == ParseExtension(id)
  {
    var claim := PlanClaim(names, lowered, id, uuid).value;
    var e := ClaimIs(names, lowered, id, uuid);
    if ParseExtension(id).None? {
      OnlyFileIsFound(names - {claim.currentName} + {claim.finalName}, claim.finalId, e);
    }
  }

  /** And it is out of the sweep's reach, exactly when it was not uploaded under the extension that is
      reserved for partial uploads, which ids of pending uploads never carry. */
  lemma ClaimedSurvivesExactly(names: set<string>, lowered: string, id: string, uuid: string)
    requires IsLower(lowered) && LoweredUuid(uuid) && PlanClaim(names, lowered, id, uuid).Ok?
    ensures Sweepable(PlanClaim(names, lowered, id, uuid).value.finalName) <==> ParseExtension(id) == Some(PART)
  {
    var parts := Split(id).value;
    SplitIsExact(id, parts);
    ResolvedExtension(names, parts);
    var claim := PlanClaim(names, lowered, id, uuid).value;
    var e := ExtensionIn(claim.currentName);
    PartialNames(claim.finalId, e);
    if e == PART {
      StoredExtensionsStore();
    } else {
      if parts.extension.Some? {
        LowerIsLower(parts.extension.value);
      }
      StoredIsNeverSwept(lowered, uuid, ParseExtension(id), e);
    }
  }

  lemma PartIdReadsBack(uuid: string)
    requires LoweredUuid(uuid)
    ensures var id := IdOf(PENDING, uuid, Some(PART));
      Split(id).Some? && ParseSegment(id) == Some(PENDING) && ParseExtension(id) == Some(PART)
  {
    assert IsExtension(PART) && IsLower(PART);
    assert IdExtension(Some(PART)) == Some(PART);
    IdReadsBack(PENDING, uuid, Some(PART));
  }

  /** An id made by hand with that extension shows it: its upload is claimed and then swept. */
  lemma PartUploadIsSwept(uuid: string)
    requires LoweredUuid(uuid)
    ensures var id := IdOf(PENDING, uuid, Some(PART));
      var claim := PlanClaim({NameOf(id, PART)}, "t", id, uuid);
      claim.Ok? && Sweepable(claim.value.finalName)
  {
    var id := IdOf(PENDING, uuid, Some(PART));
    PartIdReadsBack(uuid);
    assert ResolveById({NameOf(id, PART)}, id) == Some(NameOf(id, PART));
    assert IsSolid("t"[0]) && IsLower("t");
    ClaimSucceedsExactly({NameOf(id, PART)}, "t", id, uuid);
    ClaimedSurvivesExactly({NameOf(id, PART)}, "t", id, uuid);
  }
}
