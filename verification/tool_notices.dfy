/** The fixed texts of tool result projections, and how many bytes they take. */
module ToolNotices {
  import opened Utf8

  const DOTS: string := "\U{2026}"
  const NOTE: string := " [truncated] "
  const MARKER: seq<byte> := Encode(DOTS + NOTE + DOTS)

  predicate IsAscii(text: string) { forall i :: 0 <= i < |text| ==> text[i] as int < 0x80 }

  lemma {:induction false} AsciiBytes(text: string)
    requires IsAscii(text)
    ensures |Encode(text)| == |text|
    ensures forall i :: 0 <= i < |text| ==> Encode(text)[i] == text[i] as int
  {
    if text != "" {
      AsciiBytes(text[1..]);
    }
  }

  lemma MarkerLength()
    ensures |MARKER| == 19 && IsUtf8(MARKER)
  {
    DotsLength();
    NoteLength();
    Sum(DOTS, NOTE, DOTS);
  }

  lemma Sum(a: string, b: string, c: string)
    ensures |Encode(a + b + c)| == |Encode(a)| + |Encode(b)| + |Encode(c)| && IsUtf8(Encode(a + b + c))
  {
    ThreeParts(a, b, c);
  }

  lemma DotsLength()
    ensures |Encode(DOTS)| == 3
  {
    assert DOTS[1..] == "";
  }

  lemma NoteLength()
    ensures |Encode(NOTE)| == 13
  {
    AsciiBytes(NOTE);
  }

  lemma ThreeParts(a: string, b: string, c: string)
    ensures Encode(a + b + c) == Encode(a) + Encode(b) + Encode(c)
  {
    EncodeConcat(a, b);
    EncodeConcat(a + b, c);
  }

  lemma AsciiBetween(before: string, name: string, after: string)
    requires IsAscii(name) && IsAscii(after)
    ensures |Encode(before + name + after)| == |Encode(before)| + |name| + |after|
  {
    Sum(before, name, after);
    AsciiBytes(name);
    AsciiBytes(after);
  }

  const STATUS_PREFIX: string := "[tool error status: "

  lemma PrefixBytes()
    ensures |Encode(STATUS_PREFIX)| == 20
  {
    AsciiBytes(STATUS_PREFIX);
  }

  const LONGEST_STATUS: string := "[tool error status: invalid_arguments]"

  const GUIDANCE_LABEL: string := "[recovery guidance: "
  const DETAILS_LABEL: string := "[tool details (serialized JSON): "

  const NEWLINE: byte := 0x0a

  lemma NewlineUtf8()
    ensures IsUtf8([NEWLINE])
  {
    assert "\n"[1..] == "" && Encode("\n") == [NEWLINE];
  }

  const NOTICE_START: string := "[repeated tool error"
  const NOTICE_MIDDLE: string := " omitted; see the "
  const NOTICE_END: string := "earlier matching result]"
  const DUPLICATE_NOTICE: seq<byte> := Encode(NOTICE_START + NOTICE_MIDDLE + NOTICE_END)

  lemma NoticeLength()
    ensures |DUPLICATE_NOTICE| == 62 && IsUtf8(DUPLICATE_NOTICE)
  {
    StartLength();
    MiddleLength();
    EndLength();
    Sum(NOTICE_START, NOTICE_MIDDLE, NOTICE_END);
  }

  lemma StartLength()
    ensures |Encode(NOTICE_START)| == 20
  {
    AsciiBytes(NOTICE_START);
  }

  lemma MiddleLength()
    ensures |Encode(NOTICE_MIDDLE)| == 18
  {
    AsciiBytes(NOTICE_MIDDLE);
  }

  lemma EndLength()
    ensures |Encode(NOTICE_END)| == 24
  {
    AsciiBytes(NOTICE_END);
  }
}
