/**
 How tool results are cut down for a text-only provider: truncation in the middle at character
 boundaries, and sections appended within a byte budget. Strings are their UTF-8 bytes.
 */
module ToolText {
  import opened Basics
  import opened Messages
  import opened ToolNotices
  import opened Utf8
  import opened Wrappers

  /** The start of a character, or the end. */
  predicate Boundary(bytes: seq<byte>, i: nat) {
    i == 0 || i == |bytes| || (i < |bytes| && !Continuation(bytes[i]))
  }

  lemma CharStarts(c: char)
    ensures !Continuation(EncodeChar(c)[0])
    ensures forall i :: 1 <= i < |EncodeChar(c)| ==> Continuation(EncodeChar(c)[i])
  {
  }

  lemma EncodedCons(text: string, p: nat)
    requires text != "" && p < |text|
    ensures Encode(text[..p + 1]) == EncodeChar(text[0]) + Encode(text[1..][..p])
    ensures Encode(text[p + 1..]) == Encode(text[1..][p..])
  {
    assert text[..p + 1][0] == text[0] && text[..p + 1][1..] == text[1..][..p];
    assert text[p + 1..] == text[1..][p..];
  }

  /** A boundary splits the text as well as the bytes. */
  lemma {:induction false} BoundarySplits(text: string, i: nat) returns (p: nat)
    requires Boundary(Encode(text), i) && i <= |Encode(text)|
    ensures p <= |text| && Encode(text)[..i] == Encode(text[..p]) && Encode(text)[i..] == Encode(text[p..])
    decreases |text|
  {
    if i == 0 {
      p := 0;
      assert text[0..] == text && text[..0] == "";
    } else {
      var (head, rest) := (EncodeChar(text[0]), Encode(text[1..]));
      CharStarts(text[0]);
      assert i >= |head|;
      assert i < |Encode(text)| ==> Encode(text)[i] == rest[i - |head|];
      p := BoundarySplits(text[1..], i - |head|);
      EncodedCons(text, p);
      p := p + 1;
      assert (head + rest)[..i] == head + rest[..i - |head|];
      assert (head + rest)[i..] == rest[i - |head|..];
    }
  }

  /** A character has at most four bytes, so boundaries are never far below or above an index. */
  lemma {:induction false} BoundaryNear(text: string, i: nat) returns (below: nat, above: nat)
    requires i <= |Encode(text)|
    ensures below <= i <= above <= |Encode(text)| && i <= below + 3 && above <= i + 3
    ensures Boundary(Encode(text), below) && Boundary(Encode(text), above)
    decreases |text|
  {
    if i == 0 {
      below, above := 0, 0;
    } else {
      var (head, rest) := (EncodeChar(text[0]), Encode(text[1..]));
      CharStarts(text[0]);
      if text[1..] != "" { CharStarts(text[1..][0]); }
      if i < |head| {
        Shifted(head, rest, 0);
        below, above := 0, |head|;
      } else {
        below, above := BoundaryNear(text[1..], i - |head|);
        Shifted(head, rest, below);
        Shifted(head, rest, above);
        below, above := below + |head|, above + |head|;
      }
    }
  }

  lemma Shifted(head: seq<byte>, rest: seq<byte>, i: nat)
    requires i <= |rest| && Boundary(rest, i) && (rest == [] || !Continuation(rest[0]))
    ensures Boundary(head + rest, i + |head|)
  {
  }

  /** The last boundary at or below an index. */
  function LastBoundary(bytes: seq<byte>, limit: nat): (end: nat)
    ensures end <= limit && Boundary(bytes, end)
  {
    if limit == 0 || Boundary(bytes, limit) then limit else LastBoundary(bytes, limit - 1)
  }

  /** The first boundary at or above an index. */
  function FirstBoundary(bytes: seq<byte>, start: nat): (first: nat)
    requires start <= |bytes|
    ensures start <= first <= |bytes| && Boundary(bytes, first)
    decreases |bytes| - start
  {
    if Boundary(bytes, start) then start else FirstBoundary(bytes, start + 1)
  }

  /** No boundary lies between an index and where it is rounded to. */
  lemma {:induction false} RoundedNearest(bytes: seq<byte>, i: nat, b: nat)
    requires i <= |bytes| && Boundary(bytes, b)
    ensures b <= i ==> b <= LastBoundary(bytes, i)
    ensures i <= b <= |bytes| ==> FirstBoundary(bytes, i) <= b
    decreases if b <= i then i - b else b - i
  {
    if b < i {
      RoundedNearest(bytes, i - 1, b);
    } else if i < b <= |bytes| {
      RoundedNearest(bytes, i + 1, b);
    }
  }

  /** In valid UTF-8, rounding to a boundary gives up three bytes at most. */
  lemma BoundariesNear(bytes: seq<byte>, i: nat)
    requires IsUtf8(bytes) && i <= |bytes|
    ensures i <= LastBoundary(bytes, i) + 3 && FirstBoundary(bytes, i) <= i + 3
  {
    var text: string :| Encode(text) == bytes;
    var below, above := BoundaryNear(text, i);
    RoundedNearest(bytes, i, below);
    RoundedNearest(bytes, i, above);
  }

  method PrefixEnd(bytes: seq<byte>, limit: nat) returns (end: nat)
    ensures end == LastBoundary(bytes, Min(limit, |bytes|))
  {
    end := Min(limit, |bytes|);
    while end > 0 && !Boundary(bytes, end)
      invariant LastBoundary(bytes, end) == LastBoundary(bytes, Min(limit, |bytes|))
    {
      end := end - 1;
    }
  }

  method SuffixStart(bytes: seq<byte>, limit: nat) returns (start: nat)
    ensures start == FirstBoundary(bytes, |bytes| - Min(limit, |bytes|))
  {
    start := if |bytes| > limit then |bytes| - limit else 0;
    while start < |bytes| && !Boundary(bytes, start)
      invariant start <= |bytes|
      invariant FirstBoundary(bytes, start) == FirstBoundary(bytes, |bytes| - Min(limit, |bytes|))
    {
      start := start + 1;
    }
  }

  /** The kept parts are a true prefix and a true suffix of the text that do not overlap. */
  ghost predicate KeepsEnds(bytes: seq<byte>, marker: seq<byte>, cut: seq<byte>) {
    exists i, j :: 0 <= i <= j <= |bytes| && Boundary(bytes, i) && Boundary(bytes, j)
      && cut == bytes[..i] + marker + bytes[j..]
  }

  /** What truncation promises for every valid text and every limit. */
  ghost predicate Truncated(bytes: seq<byte>, limit: nat, marker: seq<byte>, cut: seq<byte>) {
    && IsUtf8(cut)
    && if |bytes| <= limit then cut == bytes
       else if limit <= |marker| then cut <= marker && |cut| <= limit <= |cut| + 3
       else KeepsEnds(bytes, marker, cut) && |cut| <= limit <= |cut| + 6
  }

  lemma ConcatUtf8(a: seq<byte>, b: seq<byte>)
    requires IsUtf8(a) && IsUtf8(b)
    ensures IsUtf8(a + b)
  {
    var s: string :| Encode(s) == a;
    var t: string :| Encode(t) == b;
    EncodeConcat(s, t);
  }

  lemma SplitUtf8(bytes: seq<byte>, i: nat)
    requires IsUtf8(bytes) && i <= |bytes| && Boundary(bytes, i)
    ensures IsUtf8(bytes[..i]) && IsUtf8(bytes[i..])
  {
    var text: string :| Encode(text) == bytes;
    var p := BoundarySplits(text, i);
  }

  /** A text over the limit keeps half of what the marker leaves on either side of it, rounded to characters. */
  function Shortened(bytes: seq<byte>, limit: nat, marker: seq<byte>): seq<byte> {
    if |bytes| <= limit then bytes
    else if limit <= |marker| then marker[..LastBoundary(marker, limit)]
    else
      var half := (limit - |marker|) / 2;
      Ends(bytes, half, limit - |marker| - half, marker)
  }

  /** The longest prefix and suffix of whole characters within their limits, around the marker. */
  function Ends(bytes: seq<byte>, prefix: nat, suffix: nat, marker: seq<byte>): seq<byte>
    requires prefix + suffix <= |bytes|
  {
    bytes[..LastBoundary(bytes, prefix)] + marker + bytes[FirstBoundary(bytes, |bytes| - suffix)..]
  }

  lemma ShortenedCases(bytes: seq<byte>, limit: nat, marker: seq<byte>)
    ensures |bytes| <= limit ==> Shortened(bytes, limit, marker) == bytes
    ensures |bytes| > limit && limit <= |marker| ==>
      Shortened(bytes, limit, marker) == marker[..LastBoundary(marker, limit)]
    ensures |bytes| > limit > |marker| ==>
      var half := (limit - |marker|) / 2;
      Shortened(bytes, limit, marker) == Ends(bytes, half, limit - |marker| - half, marker)
  {
  }

  lemma ShortenedWithin(bytes: seq<byte>, limit: nat, marker: seq<byte>)
    ensures |Shortened(bytes, limit, marker)| <= limit
  {
    ShortenedCases(bytes, limit, marker);
  }

  lemma ShortenedUtf8(bytes: seq<byte>, limit: nat, marker: seq<byte>)
    requires IsUtf8(bytes) && IsUtf8(marker)
    ensures IsUtf8(Shortened(bytes, limit, marker))
  {
    var cut := Shortened(bytes, limit, marker);
    if |bytes| <= limit {
    } else if limit <= |marker| {
      SplitUtf8(marker, LastBoundary(marker, limit));
    } else {
      var half := (limit - |marker|) / 2;
      assert cut == Ends(bytes, half, limit - |marker| - half, marker) by {
        ShortenedCases(bytes, limit, marker);
      }
      EndsUtf8(bytes, half, limit - |marker| - half, marker);
    }
  }

  lemma EndsUtf8(bytes: seq<byte>, prefix: nat, suffix: nat, marker: seq<byte>)
    requires IsUtf8(bytes) && IsUtf8(marker) && prefix + suffix <= |bytes|
    ensures IsUtf8(Ends(bytes, prefix, suffix, marker))
  {
    var (i, j) := (LastBoundary(bytes, prefix), FirstBoundary(bytes, |bytes| - suffix));
    SplitUtf8(bytes, i);
    SplitUtf8(bytes, j);
    ThreeUtf8(bytes[..i], marker, bytes[j..]);
  }

  lemma ThreeUtf8(a: seq<byte>, b: seq<byte>, c: seq<byte>)
    requires IsUtf8(a) && IsUtf8(b) && IsUtf8(c)
    ensures IsUtf8(a + b + c)
  {
    ConcatUtf8(a, b);
    ConcatUtf8(a + b, c);
  }

  lemma ShortenedNear(bytes: seq<byte>, limit: nat, marker: seq<byte>)
    requires |bytes| > limit && NearBoundaries(bytes) && NearBoundaries(marker)
    ensures
      var cut := Shortened(bytes, limit, marker);
      if limit <= |marker| then cut <= marker && |cut| <= limit <= |cut| + 3
      else KeepsEnds(bytes, marker, cut) && |cut| <= limit <= |cut| + 6
  {
    ShortenedCases(bytes, limit, marker);
    ShortenedWithin(bytes, limit, marker);
    if limit > |marker| {
      var half := (limit - |marker|) / 2;
      EndsNear(bytes, half, limit - |marker| - half, marker);
    }
  }

  lemma EndsNear(bytes: seq<byte>, prefix: nat, suffix: nat, marker: seq<byte>)
    requires NearBoundaries(bytes) && prefix + suffix <= |bytes|
    ensures KeepsEnds(bytes, marker, Ends(bytes, prefix, suffix, marker))
    ensures |Ends(bytes, prefix, suffix, marker)| <= prefix + suffix + |marker|
      <= |Ends(bytes, prefix, suffix, marker)| + 6
  {
  }

  predicate NearBoundaries(bytes: seq<byte>) {
    forall i :: 0 <= i <= |bytes| ==> i <= LastBoundary(bytes, i) + 3 && FirstBoundary(bytes, i) <= i + 3
  }

  /** Truncation of valid UTF-8 meets its promise for every limit and every marker. */
  lemma ShortenedKeeps(bytes: seq<byte>, limit: nat, marker: seq<byte>)
    requires IsUtf8(bytes) && IsUtf8(marker)
    ensures Truncated(bytes, limit, marker, Shortened(bytes, limit, marker))
  {
    ShortenedUtf8(bytes, limit, marker);
    ShortenedCases(bytes, limit, marker);
    if |bytes| > limit {
      forall i | 0 <= i <= |bytes| ensures i <= LastBoundary(bytes, i) + 3 && FirstBoundary(bytes, i) <= i + 3 {
        BoundariesNear(bytes, i);
      }
      forall i | 0 <= i <= |marker| ensures i <= LastBoundary(marker, i) + 3 && FirstBoundary(marker, i) <= i + 3 {
        BoundariesNear(marker, i);
      }
      ShortenedNear(bytes, limit, marker);
    }
  }

  method TruncateMiddle(bytes: seq<byte>, limit: nat, marker: seq<byte>) returns (cut: seq<byte>)
    ensures cut == Shortened(bytes, limit, marker)
  {
    if |bytes| <= limit {
      cut := bytes;
    } else if limit <= |marker| {
      var end := PrefixEnd(marker, limit);
      assert Min(limit, |marker|) == limit;
      cut := marker[..end];
    } else {
      var half := (limit - |marker|) / 2;
      cut := KeepEnds(bytes, half, limit - |marker| - half, marker);
    }
  }

  method KeepEnds(bytes: seq<byte>, prefixLimit: nat, suffixLimit: nat, marker: seq<byte>) returns (cut: seq<byte>)
    requires prefixLimit + suffixLimit <= |bytes|
    ensures cut == Ends(bytes, prefixLimit, suffixLimit, marker)
  {
    var prefixEnd := PrefixEnd(bytes, prefixLimit);
    var suffixStart := SuffixStart(bytes, suffixLimit);
    cut := bytes[..prefixEnd] + marker + bytes[suffixStart..];
  }

  // ----- Projection

  datatype Policy = Policy(maxContent: nat, maxDetails: nat, maxTotal: nat, deduplicate: bool)

  function StatusName(disposition: Disposition): string {
    match disposition
    case CancelledByHost => "cancelled"
    case InvalidArguments => "invalid_arguments"
    case Recoverable => "recoverable"
    case Retryable => "retryable"
    case Fatal => "fatal"
  }

  function StatusHeader(failure: Option<ToolFailure>): string { STATUS_PREFIX + Status(failure) + "]" }

  /** The limits leave room for an error status, a line break and the marker. */
  predicate IsValid(policy: Policy) {
    && policy.maxContent >= |MARKER| && policy.maxDetails >= |MARKER|
    && policy.maxTotal >= |LONGEST_STATUS| + 1 + |MARKER|
  }

  function Status(failure: Option<ToolFailure>): (name: string)
    ensures IsAscii(name) && 0 < |name| <= 17
  {
    if failure.Some? then StatusName(failure.value.disposition) else "recoverable"
  }

  lemma HeaderFits(failure: Option<ToolFailure>)
    ensures 0 < |Encode(StatusHeader(failure))| <= |LONGEST_STATUS|
  {
    PrefixBytes();
    AsciiBetween(STATUS_PREFIX, Status(failure), "]");
  }

  /** Sections are separated by one line break, and empty ones leave no trace. */
  function Joined(output: seq<byte>, section: seq<byte>): seq<byte> {
    if section == [] then output else if output == [] then section else output + [NEWLINE] + section
  }

  /** A section is appended, truncated to the room that is left, unless there is no room at all. */
  function Appended(output: seq<byte>, section: seq<byte>, total: nat, marker: seq<byte>): seq<byte> {
    var available := if total > |output| then total - |output| else 0;
    var separator := if output == [] then 0 else 1;
    if section == [] || available <= separator then output
    else Behind(output, Shortened(section, available - separator, marker))
  }

  function Behind(output: seq<byte>, cut: seq<byte>): seq<byte> {
    if output == [] then cut else output + [NEWLINE] + cut
  }

  lemma BehindUtf8(output: seq<byte>, cut: seq<byte>)
    requires IsUtf8(output) && IsUtf8(cut)
    ensures IsUtf8(Behind(output, cut))
  {
    NewlineUtf8();
    ConcatUtf8(output, [NEWLINE]);
    ConcatUtf8(output + [NEWLINE], cut);
  }

  lemma AppendedCases(output: seq<byte>, section: seq<byte>, total: nat, marker: seq<byte>)
    ensures
      var available := if total > |output| then total - |output| else 0;
      var separator := if output == [] then 0 else 1;
      var r := Appended(output, section, total, marker);
      if section == [] || available <= separator then r == output
      else r == Behind(output, Shortened(section, available - separator, marker))
  {
  }

  lemma AppendedWhole(output: seq<byte>, section: seq<byte>, total: nat, marker: seq<byte>)
    requires |Joined(output, section)| <= total
    ensures Appended(output, section, total, marker) == Joined(output, section)
  {
    AppendedCases(output, section, total, marker);
    if section != [] {
      ShortenedCases(section, total - |output| - if output == [] then 0 else 1, marker);
    }
  }

  /** What stands already is never displaced, and the budget is kept. */
  lemma AppendedWithin(output: seq<byte>, section: seq<byte>, total: nat, marker: seq<byte>)
    ensures output <= Appended(output, section, total, marker)
    ensures |output| <= total ==> |Appended(output, section, total, marker)| <= total
  {
    AppendedCases(output, section, total, marker);
    var available := if total > |output| then total - |output| else 0;
    var separator := if output == [] then 0 else 1;
    if section != [] && available > separator {
      ShortenedWithin(section, available - separator, marker);
    }
  }

  lemma AppendedUtf8(output: seq<byte>, section: seq<byte>, total: nat, marker: seq<byte>)
    requires IsUtf8(output) && IsUtf8(section) && IsUtf8(marker)
    ensures IsUtf8(Appended(output, section, total, marker))
  {
    AppendedCases(output, section, total, marker);
    var available := if total > |output| then total - |output| else 0;
    var separator := if output == [] then 0 else 1;
    if section != [] && available > separator {
      ShortenedUtf8(section, available - separator, marker);
      BehindUtf8(output, Shortened(section, available - separator, marker));
    }
  }

  method AppendSection(output: seq<byte>, section: seq<byte>, total: nat, marker: seq<byte>) returns (r: seq<byte>)
    ensures r == Appended(output, section, total, marker)
  {
    var available := if total > |output| then total - |output| else 0;
    var separator := if output == [] then 0 else 1;
    if section == [] || available <= separator {
      r := output;
    } else {
      var cut := TruncateMiddle(section, available - separator, marker);
      r := Behind(output, cut);
    }
  }

  function Labelled(name: string, bytes: seq<byte>): seq<byte> { Encode(name) + bytes + Encode("]") }

  lemma LabelledUtf8(name: string, bytes: seq<byte>)
    requires IsUtf8(bytes)
    ensures IsUtf8(Labelled(name, bytes)) && Labelled(name, bytes) != []
  {
    ConcatUtf8(Encode(name), bytes);
    ConcatUtf8(Encode(name) + bytes, Encode("]"));
    AsciiBytes("]");
  }

  datatype Raw = Raw(content: string, details: Option<string>, isError: bool, failure: Option<ToolFailure>)

  function Guidance(raw: Raw): Option<string> {
    if raw.isError && raw.failure.Some? then raw.failure.value.guidance else None
  }

  function StatusPart(raw: Raw): seq<byte> { if raw.isError then Encode(StatusHeader(raw.failure)) else [] }

  function LabelledPart(name: string, text: Option<string>): seq<byte> {
    if text.Some? then Labelled(name, Encode(text.value)) else []
  }

  function JoinedFour(a: seq<byte>, b: seq<byte>, c: seq<byte>, d: seq<byte>): seq<byte> {
    Joined(Joined(Joined(Joined([], a), b), c), d)
  }

  /** The sections without any truncation. */
  function Whole(raw: Raw): seq<byte> {
    JoinedFour(StatusPart(raw), LabelledPart(GUIDANCE_LABEL, Guidance(raw)), Encode(raw.content),
      LabelledPart(DETAILS_LABEL, raw.details))
  }

  /** Nothing has to be cut. */
  predicate Fits(raw: Raw, policy: Policy) {
    && |Encode(raw.content)| <= policy.maxContent
    && (Guidance(raw).Some? ==> |Encode(Guidance(raw).value)| <= policy.maxDetails)
    && (raw.details.Some? ==> |Encode(raw.details.value)| <= policy.maxDetails)
    && |Whole(raw)| <= policy.maxTotal
  }

  /** The truncated labelled section that stands for an optional text. */
  function LabelledCut(name: string, text: Option<string>, limit: nat, marker: seq<byte>): seq<byte> {
    if text.Some? then Labelled(name, Shortened(Encode(text.value), limit, marker)) else []
  }

  lemma LabelledCutUtf8(name: string, text: Option<string>, limit: nat, marker: seq<byte>)
    requires IsUtf8(marker)
    ensures IsUtf8(LabelledCut(name, text, limit, marker))
  {
    assert Encode("") == [];
    if text.Some? {
      ShortenedUtf8(Encode(text.value), limit, marker);
      LabelledUtf8(name, Shortened(Encode(text.value), limit, marker));
    }
  }

  lemma LabelledCutWhole(name: string, text: Option<string>, limit: nat, marker: seq<byte>)
    requires text.Some? ==> |Encode(text.value)| <= limit
    ensures LabelledCut(name, text, limit, marker) == LabelledPart(name, text)
  {
    if text.Some? {
      ShortenedCases(Encode(text.value), limit, marker);
    }
  }

  function AppendedFour(a: seq<byte>, b: seq<byte>, c: seq<byte>, d: seq<byte>, total: nat,
      marker: seq<byte>)
    : seq<byte>
  {
    Appended(Appended(Appended(Appended([], a, total, marker), b, total, marker), c, total, marker), d, total, marker)
  }

  /** Status, guidance, content and details, each cut to its own limit and all to the total. */
  function Projected(raw: Raw, policy: Policy, marker: seq<byte>): seq<byte> {
    AppendedFour(StatusPart(raw), LabelledCut(GUIDANCE_LABEL, Guidance(raw), policy.maxDetails, marker),
      Shortened(Encode(raw.content), policy.maxContent, marker),
      LabelledCut(DETAILS_LABEL, raw.details, policy.maxDetails, marker), policy.maxTotal, marker)
  }

  /** Within the budget, a complete status header first, and everything in full if everything fits. */
  ghost predicate Projects(raw: Raw, policy: Policy, output: seq<byte>) {
    && IsUtf8(output) && |output| <= policy.maxTotal
    && (raw.isError ==> Encode(StatusHeader(raw.failure)) <= output)
    && (Fits(raw, policy) ==> output == Whole(raw))
  }

  lemma FourUtf8(a: seq<byte>, b: seq<byte>, c: seq<byte>, d: seq<byte>, total: nat, marker: seq<byte>)
    requires IsUtf8(a) && IsUtf8(b) && IsUtf8(c) && IsUtf8(d) && IsUtf8(marker)
    ensures IsUtf8(AppendedFour(a, b, c, d, total, marker))
  {
    assert Encode("") == [];
    AppendedUtf8([], a, total, marker);
    var one := Appended([], a, total, marker);
    AppendedUtf8(one, b, total, marker);
    var two := Appended(one, b, total, marker);
    AppendedUtf8(two, c, total, marker);
    AppendedUtf8(Appended(two, c, total, marker), d, total, marker);
  }

  /** The first section is kept whole if it fits. */
  lemma FourWithin(a: seq<byte>, b: seq<byte>, c: seq<byte>, d: seq<byte>, total: nat, marker: seq<byte>)
    requires |a| <= total
    ensures a <= AppendedFour(a, b, c, d, total, marker) && |AppendedFour(a, b, c, d, total, marker)| <= total
  {
    AppendedWhole([], a, total, marker);
    AppendedWithin(a, b, total, marker);
    var two := Appended(a, b, total, marker);
    AppendedWithin(two, c, total, marker);
    AppendedWithin(Appended(two, c, total, marker), d, total, marker);
  }

  /** All sections are kept whole if all fit. */
  lemma FourWhole(a: seq<byte>, b: seq<byte>, c: seq<byte>, d: seq<byte>, total: nat, marker: seq<byte>)
    requires |JoinedFour(a, b, c, d)| <= total
    ensures AppendedFour(a, b, c, d, total, marker) == JoinedFour(a, b, c, d)
  {
    var one := Joined([], a);
    var two := Joined(one, b);
    AppendedWhole([], a, total, marker);
    AppendedWhole(one, b, total, marker);
    AppendedWhole(two, c, total, marker);
    AppendedWhole(Joined(two, c), d, total, marker);
  }

  lemma StatusFits(raw: Raw, policy: Policy)
    requires IsValid(policy)
    ensures IsUtf8(StatusPart(raw)) && |StatusPart(raw)| <= policy.maxTotal
  {
    MarkerLength();
    HeaderFits(raw.failure);
    assert Encode("") == [];
  }

  lemma ProjectedUtf8(raw: Raw, policy: Policy, marker: seq<byte>)
    requires IsValid(policy) && IsUtf8(marker)
    ensures IsUtf8(Projected(raw, policy, marker))
  {
    StatusFits(raw, policy);
    LabelledCutUtf8(GUIDANCE_LABEL, Guidance(raw), policy.maxDetails, marker);
    LabelledCutUtf8(DETAILS_LABEL, raw.details, policy.maxDetails, marker);
    ShortenedUtf8(Encode(raw.content), policy.maxContent, marker);
    FourUtf8(StatusPart(raw), LabelledCut(GUIDANCE_LABEL, Guidance(raw), policy.maxDetails, marker),
      Shortened(Encode(raw.content), policy.maxContent, marker),
      LabelledCut(DETAILS_LABEL, raw.details, policy.maxDetails, marker), policy.maxTotal, marker);
  }

  lemma ProjectedWithin(raw: Raw, policy: Policy, marker: seq<byte>)
    requires IsValid(policy)
    ensures StatusPart(raw) <= Projected(raw, policy, marker) && |Projected(raw, policy, marker)| <= policy.maxTotal
  {
    StatusFits(raw, policy);
    FourWithin(StatusPart(raw), LabelledCut(GUIDANCE_LABEL, Guidance(raw), policy.maxDetails, marker),
      Shortened(Encode(raw.content), policy.maxContent, marker),
      LabelledCut(DETAILS_LABEL, raw.details, policy.maxDetails, marker), policy.maxTotal, marker);
  }

  lemma ProjectedWhole(raw: Raw, policy: Policy, marker: seq<byte>)
    requires Fits(raw, policy)
    ensures Projected(raw, policy, marker) == Whole(raw)
  {
    LabelledCutWhole(GUIDANCE_LABEL, Guidance(raw), policy.maxDetails, marker);
    LabelledCutWhole(DETAILS_LABEL, raw.details, policy.maxDetails, marker);
    ShortenedCases(Encode(raw.content), policy.maxContent, marker);
    FourWhole(StatusPart(raw), LabelledPart(GUIDANCE_LABEL, Guidance(raw)), Encode(raw.content),
      LabelledPart(DETAILS_LABEL, raw.details), policy.maxTotal, marker);
  }

  /** Under a valid policy every projection meets its promise. */
  lemma ProjectedKeeps(raw: Raw, policy: Policy, marker: seq<byte>)
    requires IsValid(policy) && IsUtf8(marker)
    ensures Projects(raw, policy, Projected(raw, policy, marker))
  {
    ProjectedUtf8(raw, policy, marker);
    ProjectedWithin(raw, policy, marker);
    if Fits(raw, policy) {
      ProjectedWhole(raw, policy, marker);
    }
  }

  method ProjectSections(raw: Raw, policy: Policy, marker: seq<byte>) returns (output: seq<byte>)
    ensures output == Projected(raw, policy, marker)
  {
    var guidance := LabelledSection(GUIDANCE_LABEL, Guidance(raw), policy.maxDetails, marker);
    var content := TruncateMiddle(Encode(raw.content), policy.maxContent, marker);
    var details := LabelledSection(DETAILS_LABEL, raw.details, policy.maxDetails, marker);
    output := AppendFour(StatusPart(raw), guidance, content, details, policy.maxTotal, marker);
  }

  method AppendFour(a: seq<byte>, b: seq<byte>, c: seq<byte>, d: seq<byte>, total: nat, marker: seq<byte>)
    returns (output: seq<byte>)
    ensures output == AppendedFour(a, b, c, d, total, marker)
  {
    output := AppendSection([], a, total, marker);
    output := AppendSection(output, b, total, marker);
    output := AppendSection(output, c, total, marker);
    output := AppendSection(output, d, total, marker);
  }

  method LabelledSection(name: string, text: Option<string>, limit: nat, marker: seq<byte>) returns (section: seq<byte>)
    ensures section == LabelledCut(name, text, limit, marker)
  {
    if text.None? {
      return [];
    }
    var cut := TruncateMiddle(Encode(text.value), limit, marker);
    return Labelled(name, cut);
  }

  /** One projected context: error payloads seen so far, by fingerprint. */
  class Projection {
    const fingerprint: (string, string, string) -> nat
    var seen: set<nat>

    constructor (fingerprint: (string, string, string) -> nat)
      ensures this.fingerprint == fingerprint && seen == {}
    {
      this.fingerprint := fingerprint;
      seen := {};
    }

    function Print(raw: Raw): nat {
      fingerprint(raw.content, if raw.details.Some? then raw.details.value else "",
        if raw.failure.Some? && raw.failure.value.signature.Some? then raw.failure.value.signature.value else "")
    }

    /**
     A projection is at most the total budget or the fixed notice; an error that is not a repetition starts
     with its complete status, and what fits is shown whole.
     */
    method Project(raw: Raw, policy: Policy) returns (output: seq<byte>, isError: bool)
      requires IsValid(policy)
      modifies this
      ensures isError == raw.isError && IsUtf8(output)
      ensures |output| <= if policy.maxTotal > 62 then policy.maxTotal else 62
      ensures output == if Repeats(raw, policy, old(seen)) then DUPLICATE_NOTICE else Projected(raw, policy, MARKER)
      ensures !Repeats(raw, policy, old(seen)) ==> Projects(raw, policy, output)
      ensures seen == if raw.isError then old(seen) + {Print(raw)} else old(seen)
    {
      NoticeLength();
      MarkerLength();
      ProjectedKeeps(raw, policy, MARKER);
      isError := raw.isError;
      if Repeats(raw, policy, seen) {
        return DUPLICATE_NOTICE, true;
      }
      if raw.isError {
        seen := seen + {Print(raw)};
      }
      output := ProjectSections(raw, policy, MARKER);
    }

    predicate Repeats(raw: Raw, policy: Policy, earlier: set<nat>) {
      raw.isError && policy.deduplicate && Print(raw) in earlier
    }
  }
}
