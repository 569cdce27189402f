/**
 The terminal host's input decoder: bytes arrive in pieces, keys and pastes come out.

 Time is a number of milliseconds. A lone escape byte, or the beginning of an escape sequence, is
 held for 30 ms, because the rest may still arrive.
 */
module TerminalInput {
  import opened Utf8
  import opened Wrappers

  datatype KeyCode =
    | Backspace | Delete | Down | End | Enter | Esc | Home | Left | PageDown | PageUp | Right | Tab | Up
    | Char(c: char)

  datatype Modifiers = Plain | Shift | Control | Alt

  datatype Event = Key(code: KeyCode, modifiers: Modifiers) | Paste(text: string)

  const ESC: byte := 0x1b
  const HOLD: nat := 30

  const PASTE_START: seq<byte> := [0x1b, 0x5b, 0x32, 0x30, 0x30, 0x7e]
  const PASTE_END: seq<byte> := [0x1b, 0x5b, 0x32, 0x30, 0x31, 0x7e]

  datatype Mapping = Mapping(bytes: seq<byte>, code: KeyCode, modifiers: Modifiers)

  const SEQUENCES: seq<Mapping> := [
    Mapping([0x1b, 0x5b, 0x41], Up, Plain),
    Mapping([0x1b, 0x5b, 0x42], Down, Plain),
    Mapping([0x1b, 0x5b, 0x43], Right, Plain),
    Mapping([0x1b, 0x5b, 0x44], Left, Plain),
    Mapping([0x1b, 0x5b, 0x48], Home, Plain),
    Mapping([0x1b, 0x5b, 0x46], End, Plain),
    Mapping([0x1b, 0x5b, 0x31, 0x7e], Home, Plain),
    Mapping([0x1b, 0x5b, 0x34, 0x7e], End, Plain),
    Mapping([0x1b, 0x5b, 0x33, 0x7e], Delete, Plain),
    Mapping([0x1b, 0x5b, 0x35, 0x7e], PageUp, Plain),
    Mapping([0x1b, 0x5b, 0x36, 0x7e], PageDown, Plain),
    Mapping([0x1b, 0x5b, 0x5a], Tab, Shift),
    Mapping([0x1b, 0x4f, 0x41], Up, Plain),
    Mapping([0x1b, 0x4f, 0x42], Down, Plain),
    Mapping([0x1b, 0x4f, 0x43], Right, Plain),
    Mapping([0x1b, 0x4f, 0x44], Left, Plain)
  ]

  // ----- The decoder as a function of its state

  datatype Decoder = Decoder(bytes: seq<byte>, paste: bool, deadline: Option<nat>)

  datatype Outcome = Outcome(event: Option<Event>, decoder: Decoder)

  /** Where `needle` first occurs. */
  function Find(bytes: seq<byte>, needle: seq<byte>): (at: Option<nat>)
    ensures at.Some? ==> at.value + |needle| <= |bytes| && needle <= bytes[at.value..]
    ensures at.Some? ==> forall i :: 0 <= i < at.value ==> !(needle <= bytes[i..])
    ensures at.None? ==> needle == [] || forall i :: 0 <= i <= |bytes| ==> !(needle <= bytes[i..])
    ensures needle == [] ==> at.None?
  {
    if needle != [] && needle <= bytes then Some(0)
    else if bytes == [] then None
    else
      var rest := Find(bytes[1..], needle);
      assert forall i :: 1 <= i <= |bytes| ==> bytes[i..] == bytes[1..][i - 1..];
      if rest.Some? then Some(rest.value + 1) else None
  }

  /** The first mapping from `i` on that the bytes start with. */
  function Match(bytes: seq<byte>, i: nat): (m: Option<nat>)
    ensures m.Some? ==> i <= m.value < |SEQUENCES| && SEQUENCES[m.value].bytes <= bytes
    ensures m.None? ==> forall j :: i <= j < |SEQUENCES| ==> !(SEQUENCES[j].bytes <= bytes)
    decreases |SEQUENCES| - i
  {
    if i >= |SEQUENCES| then None
    else if SEQUENCES[i].bytes <= bytes then Some(i)
    else Match(bytes, i + 1)
  }

  /** The bytes are the beginning, possibly empty, of a paste start or of a mapped sequence. */
  predicate Begins(bytes: seq<byte>) {
    bytes < PASTE_START || exists i :: 0 <= i < |SEQUENCES| && bytes < SEQUENCES[i].bytes
  }

  function Expired(deadline: Option<nat>, now: nat): bool { deadline.Some? && now >= deadline.value }

  function Held(deadline: Option<nat>, now: nat): Option<nat> {
    if deadline.Some? then deadline else Some(now + HOLD)
  }

  function NextPaste(d: Decoder): Outcome {
    var end := Find(d.bytes, PASTE_END);
    if end.None? then Outcome(None, d)
    else
      Outcome(
        Some(Paste(Lossy(d.bytes[..end.value]))), Decoder(d.bytes[end.value + |PASTE_END|..], false, d.deadline))
  }

  /** Reads a mapped sequence, or enters paste mode and reads on there. */
  function NextSequence(d: Decoder): Outcome {
    if PASTE_START <= d.bytes then NextPaste(d.(bytes := d.bytes[|PASTE_START|..], paste := true))
    else
      var m := Match(d.bytes, 0);
      if m.None? then Outcome(None, d)
      else
        var mapping := SEQUENCES[m.value];
        Outcome(Some(Key(mapping.code, mapping.modifiers)), d.(bytes := d.bytes[|mapping.bytes|..]))
  }

  /** What becomes of bytes after an escape that form no complete sequence. */
  function NextUnmatched(d: Decoder, now: nat): Outcome {
    var prefix := Begins(d.bytes);
    var deadline := if prefix then Held(d.deadline, now) else d.deadline;
    if prefix && !Expired(deadline, now) then Outcome(None, d.(deadline := deadline))
    else if |d.bytes| > 1 && d.bytes[1] >= 0x20 && d.bytes[1] != 0x5b && d.bytes[1] != 0x4f
    then Outcome(Some(Key(Char(d.bytes[1] as char), Alt)), Decoder(d.bytes[2..], d.paste, deadline))
    else Outcome(Some(Key(KeyCode.Esc, Plain)), Decoder(if d.bytes == [] then [] else d.bytes[1..], d.paste, None))
  }

  function NextEscape(d: Decoder, now: nat): Outcome {
    if |d.bytes| == 1 then
      var deadline := Held(d.deadline, now);
      if Expired(deadline, now) then Outcome(Some(Key(KeyCode.Esc, Plain)), Decoder([], d.paste, None))
      else Outcome(None, d.(deadline := deadline))
    else
      var sequence := NextSequence(d);
      if sequence.event.Some? then Outcome(sequence.event, sequence.decoder.(deadline := None))
      else NextUnmatched(sequence.decoder, now)
  }

  function NextUtf8(d: Decoder): Outcome
    requires d.bytes != []
  {
    match First(d.bytes)
    case Scalar(c, len) => Outcome(Some(Key(Char(c), Plain)), d.(bytes := d.bytes[len..]))
    case Incomplete => Outcome(None, d)
    case Invalid(_) => Outcome(Some(Key(Char('\U{FFFD}'), Plain)), d.(bytes := d.bytes[1..]))
  }

  function ControlKey(b: byte): Event
    requires b <= 0x1a
  {
    Key(Char(if b == 0 then '@' else (b + 0x60) as char), Control)
  }

  function NextPlain(d: Decoder): Outcome
    requires d.bytes != []
  {
    var first := d.bytes[0];
    var rest := d.(bytes := d.bytes[1..]);
    if first == 0x0d || first == 0x0a then Outcome(Some(Key(Enter, Plain)), rest)
    else if first == 0x09 then Outcome(Some(Key(Tab, Plain)), rest)
    else if first == 0x7f || first == 0x08 then Outcome(Some(Key(Backspace, Plain)), rest)
    else if first <= 0x1a then Outcome(Some(ControlKey(first)), rest)
    else if first < 0x80 then Outcome(Some(Key(Char(first as char), Plain)), rest)
    else NextUtf8(d)
  }

  function Next(d: Decoder, now: nat): Outcome {
    if d.paste then NextPaste(d)
    else if d.bytes == [] then Outcome(None, d)
    else if d.bytes[0] == ESC then NextEscape(d, now)
    else NextPlain(d.(deadline := None))
  }

  lemma SequenceConsumes(d: Decoder)
    ensures var next := NextSequence(d);
      if next.event.Some? || PASTE_START <= d.bytes then |next.decoder.bytes| < |d.bytes| else next.decoder == d
  {
    SequencesAreLong();
  }

  lemma UnmatchedConsumes(d: Decoder, now: nat)
    ensures var next := NextUnmatched(d, now);
      && |next.decoder.bytes| <= |d.bytes|
      && (d.bytes != [] && next.event.Some? ==> |next.decoder.bytes| < |d.bytes|)
  {
  }

  /** Every event consumes at least one byte, even the escape key reported after an empty paste start. */
  lemma EventsConsume(d: Decoder, now: nat)
    ensures Next(d, now).event.Some? ==> |Next(d, now).decoder.bytes| < |d.bytes|
    ensures Next(d, now).event.None? ==> |Next(d, now).decoder.bytes| <= |d.bytes|
  {
    if !d.paste && |d.bytes| > 1 && d.bytes[0] == ESC {
      SequenceConsumes(d);
      UnmatchedConsumes(NextSequence(d).decoder, now);
    }
  }

  lemma SequencesAreLong()
    ensures forall i :: 0 <= i < |SEQUENCES| ==> 3 <= |SEQUENCES[i].bytes| <= 4
    ensures forall i :: 0 <= i < |SEQUENCES| ==> SEQUENCES[i].bytes[0] == ESC && SEQUENCES[i].bytes[1] in {0x5b, 0x4f}
    ensures forall i :: 0 <= i < |SEQUENCES| ==> SEQUENCES[i].bytes[2] != PASTE_START[2]
  {
  }

  /** Reads events until none is left. */
  function Drain(d: Decoder, now: nat): (seq<Event>, Decoder)
    decreases |d.bytes|
  {
    EventsConsume(d, now);
    var next := Next(d, now);
    if next.event.None? then ([], next.decoder)
    else
      var (events, last) := Drain(next.decoder, now);
      ([next.event.value] + events, last)
  }

  lemma DrainsFirst(d: Decoder, now: nat)
    requires Next(d, now).event.Some?
    ensures
      var next := Next(d, now);
      Drain(d, now) == ([next.event.value] + Drain(next.decoder, now).0, Drain(next.decoder, now).1)
  {
    EventsConsume(d, now);
  }

  function Push(d: Decoder, bytes: seq<byte>): Decoder { d.(bytes := d.bytes + bytes) }

  datatype Arrival = Arrival(bytes: seq<byte>, now: nat)

  /** Pushes each piece when it arrives and drains the decoder. */
  function Session(d: Decoder, arrivals: seq<Arrival>): (seq<Event>, Decoder)
    decreases |arrivals|
  {
    if arrivals == [] then ([], d)
    else
      var (events, after) := Drain(Push(d, arrivals[0].bytes), arrivals[0].now);
      var (more, last) := Session(after, arrivals[1..]);
      (events + more, last)
  }

  // ----- Keys that decode exactly

  /**
   A key, by the bytes that stand for it. Alt is an escape and one byte: from 0x80 on that byte is the beginning of no
   key a terminal sends, and `AltCharacterExactly` says what becomes of Alt with a character of several bytes.
   */
  datatype Canonical =
    | Mapped(index: nat)
    | EnterByte(b: byte)
    | TabByte
    | BackspaceByte(b: byte)
    | ControlByte(b: byte)
    | Typed(c: char)
    | AltByte(b: byte)

  predicate IsCanonical(key: Canonical) {
    match key
    case Mapped(i) => i < |SEQUENCES|
    case EnterByte(b) => b == 0x0d || b == 0x0a
    case TabByte => true
    case BackspaceByte(b) => b == 0x7f || b == 0x08
    case ControlByte(b) => b <= 0x1a && b !in {0x08, 0x09, 0x0a, 0x0d}
    case Typed(c) => c as int > 0x1b && c as int != 0x7f
    case AltByte(b) => b >= 0x20 && b != 0x5b && b != 0x4f
  }

  function Sent(key: Canonical): (bytes: seq<byte>)
    requires IsCanonical(key)
    ensures bytes != []
  {
    match key
    case Mapped(i) => SEQUENCES[i].bytes
    case EnterByte(b) => [b]
    case TabByte => [0x09]
    case BackspaceByte(b) => [b]
    case ControlByte(b) => [b]
    case Typed(c) => EncodeChar(c)
    case AltByte(b) => [ESC, b]
  }

  function Meant(key: Canonical): Event
    requires IsCanonical(key)
  {
    match key
    case Mapped(i) => Key(SEQUENCES[i].code, SEQUENCES[i].modifiers)
    case EnterByte(_) => Key(Enter, Plain)
    case TabByte => Key(Tab, Plain)
    case BackspaceByte(_) => Key(Backspace, Plain)
    case ControlByte(b) => ControlKey(b)
    case Typed(c) => Key(Char(c), Plain)
    case AltByte(b) => Key(Char(b as char), Alt)
  }

  predicate AllCanonical(keys: seq<Canonical>) { forall k :: k in keys ==> IsCanonical(k) }

  function SentAll(keys: seq<Canonical>): seq<byte>
    requires AllCanonical(keys)
  {
    if keys == [] then [] else Sent(keys[0]) + SentAll(keys[1..])
  }

  function MeantAll(keys: seq<Canonical>): seq<Event>
    requires AllCanonical(keys)
  {
    if keys == [] then [] else [Meant(keys[0])] + MeantAll(keys[1..])
  }

  function Position(second: byte, third: byte): nat {
    if second == 0x5b then
      match third
      case 0x41 => 0 case 0x42 => 1 case 0x43 => 2 case 0x44 => 3 case 0x48 => 4 case 0x46 => 5
      case 0x31 => 6 case 0x34 => 7 case 0x33 => 8 case 0x35 => 9 case 0x36 => 10 case _ => 11
    else
      match third
      case 0x41 => 12 case 0x42 => 13 case 0x43 => 14 case _ => 15
  }

  /** The second and third byte determine the mapping, so no mapped sequence hides another. */
  lemma SequencesDiffer(i: nat, j: nat, bytes: seq<byte>)
    requires i < |SEQUENCES| && j < |SEQUENCES|
    requires SEQUENCES[i].bytes <= bytes && SEQUENCES[j].bytes <= bytes
    ensures i == j
  {
    SequencesAreLong();
    assert Position(SEQUENCES[i].bytes[1], SEQUENCES[i].bytes[2]) == i;
    assert Position(SEQUENCES[j].bytes[1], SEQUENCES[j].bytes[2]) == j;
    assert bytes[1] == SEQUENCES[i].bytes[1] == SEQUENCES[j].bytes[1];
    assert bytes[2] == SEQUENCES[i].bytes[2] == SEQUENCES[j].bytes[2];
  }

  lemma NoPasteStart(i: nat, rest: seq<byte>)
    requires i < |SEQUENCES|
    ensures !(PASTE_START <= SEQUENCES[i].bytes + rest)
  {
    SequencesAreLong();
    assert (SEQUENCES[i].bytes + rest)[2] == SEQUENCES[i].bytes[2];
  }

  /** A complete key is read whatever follows it; Alt keys alone leave the deadline as it is. */
  lemma NextIsKey(d: Decoder, key: Canonical, rest: seq<byte>, now: nat)
    requires IsCanonical(key) && !d.paste && d.bytes == Sent(key) + rest
    ensures Next(d, now) == Outcome(Some(Meant(key)), Decoder(rest, false, if key.AltByte? then d.deadline else None))
  {
    match key
    case Mapped(i) => NextIsMapped(d, i, rest, now);
    case Typed(c) => NextIsTyped(d, c, rest, now);
    case AltByte(b) => NextIsAlt(d, b, rest, now);
    case _ => assert d.bytes[1..] == rest;
  }

  lemma NextIsMapped(d: Decoder, i: nat, rest: seq<byte>, now: nat)
    requires i < |SEQUENCES| && !d.paste && d.bytes == SEQUENCES[i].bytes + rest
    ensures Next(d, now) == Outcome(Some(Meant(Mapped(i))), Decoder(rest, false, None))
  {
    SequencesAreLong();
    NoPasteStart(i, rest);
    assert SEQUENCES[i].bytes <= d.bytes;
    SequencesDiffer(i, Match(d.bytes, 0).value, d.bytes);
    assert d.bytes[|SEQUENCES[i].bytes|..] == rest;
  }

  lemma NextIsTyped(d: Decoder, c: char, rest: seq<byte>, now: nat)
    requires IsCanonical(Typed(c)) && !d.paste && d.bytes == EncodeChar(c) + rest
    ensures Next(d, now) == Outcome(Some(Meant(Typed(c))), Decoder(rest, false, None))
  {
    FirstOfEncoded(c, rest);
    assert d.bytes[|EncodeChar(c)|..] == rest;
  }

  lemma AltMatchesNothing(bytes: seq<byte>)
    requires |bytes| > 1 && bytes[1] != 0x5b && bytes[1] != 0x4f
    ensures !(PASTE_START <= bytes) && Match(bytes, 0).None? && !Begins(bytes)
  {
    SequencesAreLong();
  }

  lemma NextIsAlt(d: Decoder, b: byte, rest: seq<byte>, now: nat)
    requires IsCanonical(AltByte(b)) && !d.paste && d.bytes == [ESC, b] + rest
    ensures Next(d, now) == Outcome(Some(Meant(AltByte(b))), Decoder(rest, false, d.deadline))
  {
    assert d.bytes[1] == b;
    AltMatchesNothing(d.bytes);
    assert d.bytes[2..] == rest;
  }

  predicate Escaping(partial: seq<byte>) { partial != [] && partial[0] == ESC }

  const ESCAPE_KEY: Event := Key(KeyCode.Esc, Plain)

  /** The beginning of a typed character is held back however long it takes. */
  lemma NextIsHalfTyped(d: Decoder, c: char, now: nat)
    requires IsCanonical(Typed(c)) && !d.paste && d.bytes != [] && d.bytes < EncodeChar(c)
    ensures Next(d, now) == Outcome(None, d.(deadline := None))
  {
    FirstOfPartial(c, |d.bytes|);
  }

  /** The beginning of an escape key is held back until the deadline and then falls apart. */
  lemma NextIsEscaping(d: Decoder, key: Canonical, now: nat)
    requires IsCanonical(key) && !d.paste && Escaping(d.bytes) && d.bytes < Sent(key)
    ensures
      var deadline := Held(d.deadline, now);
      if now < deadline.value then Next(d, now) == Outcome(None, d.(deadline := deadline))
      else Next(d, now).event == Some(ESCAPE_KEY)
  {
    match key
    case Mapped(i) =>
      if Expired(Held(d.deadline, now), now) {
        LateSequence(d, i, now);
      } else {
        HeldSequence(d, i, now);
      }
    case _ =>
  }

  lemma LateSequence(d: Decoder, i: nat, now: nat)
    requires i < |SEQUENCES| && !d.paste && d.bytes != [] && d.bytes < SEQUENCES[i].bytes
    requires Expired(Held(d.deadline, now), now)
    ensures Next(d, now).event == Some(ESCAPE_KEY)
  {
    SequencesAreLong();
    if |d.bytes| > 1 {
      NoSequenceYet(d.bytes, i);
      assert d.bytes[1] == SEQUENCES[i].bytes[1];
    }
  }

  lemma NoSequenceYet(bytes: seq<byte>, i: nat)
    requires i < |SEQUENCES| && bytes < SEQUENCES[i].bytes && |bytes| > 1
    ensures Match(bytes, 0).None? && Begins(bytes) && !(PASTE_START <= bytes)
  {
    forall j | 0 <= j < |SEQUENCES| ensures !(SEQUENCES[j].bytes <= bytes) {
      if SEQUENCES[j].bytes <= bytes {
        SequencesDiffer(i, j, SEQUENCES[i].bytes);
      }
    }
    NoPasteYet(bytes, i);
  }

  lemma NoPasteYet(bytes: seq<byte>, i: nat)
    requires i < |SEQUENCES| && bytes < SEQUENCES[i].bytes
    ensures !(PASTE_START <= bytes)
  {
    SequencesAreLong();
  }

  lemma HeldSequence(d: Decoder, i: nat, now: nat)
    requires i < |SEQUENCES| && !d.paste && d.bytes != [] && d.bytes < SEQUENCES[i].bytes
    requires !Expired(Held(d.deadline, now), now)
    ensures Next(d, now) == Outcome(None, d.(deadline := Held(d.deadline, now)))
  {
    SequencesAreLong();
    if |d.bytes| > 1 {
      NoSequenceYet(d.bytes, i);
    }
  }

  // ----- Any cutting of keys decodes exactly

  lemma {:induction false} SentAllConcat(a: seq<Canonical>, b: seq<Canonical>)
    requires AllCanonical(a) && AllCanonical(b)
    ensures SentAll(a + b) == SentAll(a) + SentAll(b) && MeantAll(a + b) == MeantAll(a) + MeantAll(b)
  {
    if a == [] {
      assert a + b == b;
    } else {
      assert (a + b)[0] == a[0] && (a + b)[1..] == a[1..] + b;
      SentAllConcat(a[1..], b);
    }
  }

  /** The bytes are the beginning of the first key, possibly empty. */
  predicate Partial(bytes: seq<byte>, keys: seq<Canonical>)
    requires AllCanonical(keys)
  {
    bytes == [] || (keys != [] && bytes < Sent(keys[0]))
  }

  lemma PrefixOfSum(bytes: seq<byte>, a: seq<byte>, b: seq<byte>)
    requires bytes <= a + b
    ensures bytes < a || (bytes == a + bytes[|a|..] && bytes[|a|..] <= b)
  {
    if |bytes| < |a| {
      assert bytes == (a + b)[..|bytes|] == a[..|bytes|];
    } else {
      assert bytes[..|a|] == (a + b)[..|a|] == a;
    }
  }

  /** How many keys are complete in the bytes received so far. */
  function Complete(keys: seq<Canonical>, bytes: seq<byte>): (n: nat)
    requires AllCanonical(keys)
    ensures n <= |keys|
  {
    if keys == [] || |bytes| < |Sent(keys[0])| then 0 else 1 + Complete(keys[1..], bytes[|Sent(keys[0])|..])
  }

  /** The bytes after the complete keys. */
  function Remainder(keys: seq<Canonical>, bytes: seq<byte>): (left: seq<byte>)
    requires AllCanonical(keys)
  {
    if keys == [] || |bytes| < |Sent(keys[0])| then bytes else Remainder(keys[1..], bytes[|Sent(keys[0])|..])
  }

  lemma SentFirst(keys: seq<Canonical>, n: nat)
    requires AllCanonical(keys) && 0 < n <= |keys|
    ensures SentAll(keys[..n]) == Sent(keys[0]) + SentAll(keys[1..][..n - 1])
    ensures keys[n..] == keys[1..][n - 1..]
  {
    assert keys[..n][0] == keys[0] && keys[..n][1..] == keys[1..][..n - 1];
  }

  /** Every beginning of what was sent is some keys and the beginning of the next one. */
  lemma {:induction false} CompleteCuts(keys: seq<Canonical>, bytes: seq<byte>)
    requires AllCanonical(keys) && bytes <= SentAll(keys)
    ensures var n := Complete(keys, bytes);
      bytes == SentAll(keys[..n]) + Remainder(keys, bytes) && Partial(Remainder(keys, bytes), keys[n..])
    decreases |keys|
  {
    if keys == [] || |bytes| < |Sent(keys[0])| {
      assert keys[0..] == keys && keys[..0] == [] && [] + bytes == bytes;
      if keys != [] {
        PrefixOfSum(bytes, Sent(keys[0]), SentAll(keys[1..]));
      }
    } else {
      var (sent, others) := (Sent(keys[0]), keys[1..]);
      PrefixOfSum(bytes, sent, SentAll(others));
      var rest := bytes[|sent|..];
      CompleteCuts(others, rest);
      SentFirst(keys, Complete(keys, bytes));
      Grouped(sent, SentAll(others[..Complete(others, rest)]), Remainder(others, rest));
    }
  }

  lemma Grouped(a: seq<byte>, b: seq<byte>, c: seq<byte>)
    ensures a + b + c == a + (b + c)
  {
  }

  // ----- Deadlines

  predicate OnlyAlt(keys: seq<Canonical>) { forall k :: k in keys ==> k.AltByte? }

  /** The deadline in force once the keys are read and `left` remains: Alt keys alone leave an old one behind. */
  function InForce(deadline: Option<nat>, read: seq<Canonical>, left: seq<byte>, now: nat): Option<nat> {
    var kept := if OnlyAlt(read) then deadline else None;
    if left == [] then kept else if Escaping(left) then Held(kept, now) else None
  }

  /** At the time, the bytes that remain are not an escape key whose deadline has passed. */
  predicate Kept(deadline: Option<nat>, left: seq<byte>, now: nat) { Escaping(left) ==> !Expired(deadline, now) }

  /** Every time at which an escape key is still incomplete lies before the deadline in force then. */
  predicate InTime(deadline: Option<nat>, keys: seq<Canonical>, held: seq<byte>, arrivals: seq<Arrival>)
    requires AllCanonical(keys)
    decreases |arrivals|
  {
    arrivals == [] ||
    var (bytes, now) := (held + arrivals[0].bytes, arrivals[0].now);
    var (n, left) := (Complete(keys, bytes), Remainder(keys, bytes));
    var force := InForce(deadline, keys[..n], left, now);
    Kept(force, left, now) && InTime(force, keys[n..], left, arrivals[1..])
  }

  /** The keys are read; what is left is kept, or falls apart with an escape key that nobody pressed. */
  ghost predicate Reads(d: Decoder, keys: seq<Canonical>, left: seq<byte>, now: nat)
    requires AllCanonical(keys)
  {
    var force := InForce(d.deadline, keys, left, now);
    if Kept(force, left, now) then Drain(d, now) == (MeantAll(keys), Decoder(left, false, force))
    else FallsApart(Drain(d, now).0, keys)
  }

  predicate FallsApart(events: seq<Event>, keys: seq<Canonical>)
    requires AllCanonical(keys)
  {
    |events| > |keys| && events[..|keys|] == MeantAll(keys) && events[|keys|] == ESCAPE_KEY
  }

  lemma ReadsNoKey(d: Decoder, next: seq<Canonical>, now: nat)
    requires AllCanonical(next) && Partial(d.bytes, next) && !d.paste
    ensures Reads(d, [], d.bytes, now)
  {
    if Escaping(d.bytes) {
      NextIsEscaping(d, next[0], now);
      if Next(d, now).event.Some? {
        DrainsFirst(d, now);
      }
    } else if d.bytes != [] {
      NotEscaping(d.bytes, next[0]);
      NextIsHalfTyped(d, next[0].c, now);
    }
  }

  lemma NotEscaping(bytes: seq<byte>, key: Canonical)
    requires IsCanonical(key) && bytes != [] && bytes < Sent(key) && !Escaping(bytes)
    ensures key.Typed?
  {
    SequencesAreLong();
    assert bytes[0] == Sent(key)[0];
  }

  lemma ReadsOneMore(d: Decoder, keys: seq<Canonical>, left: seq<byte>, now: nat)
    requires AllCanonical(keys) && keys != [] && !d.paste && d.bytes == SentAll(keys) + left
    requires Reads(Next(d, now).decoder, keys[1..], left, now)
    ensures Reads(d, keys, left, now)
  {
    FirstSent(keys, left);
    NextIsKey(d, keys[0], SentAll(keys[1..]) + left, now);
    DrainsFirst(d, now);
    ForceAfterFirst(d.deadline, keys, left, now);
  }

  lemma ForceAfterFirst(deadline: Option<nat>, keys: seq<Canonical>, left: seq<byte>, now: nat)
    requires keys != []
    ensures InForce(if keys[0].AltByte? then deadline else None, keys[1..], left, now)
         == InForce(deadline, keys, left, now)
  {
    assert keys == [keys[0]] + keys[1..];
  }

  lemma {:induction false} ReadsKeys(d: Decoder, keys: seq<Canonical>, next: seq<Canonical>, left: seq<byte>, now: nat)
    requires AllCanonical(keys) && AllCanonical(next) && Partial(left, next)
    requires !d.paste && d.bytes == SentAll(keys) + left
    ensures Reads(d, keys, left, now)
    decreases |keys|
  {
    if keys == [] {
      assert d.bytes == left;
      ReadsNoKey(d, next, now);
    } else {
      FirstSent(keys, left);
      NextIsKey(d, keys[0], SentAll(keys[1..]) + left, now);
      ReadsKeys(Next(d, now).decoder, keys[1..], next, left, now);
      ReadsOneMore(d, keys, left, now);
    }
  }

  lemma FirstSent(keys: seq<Canonical>, partial: seq<byte>)
    requires AllCanonical(keys) && keys != []
    ensures IsCanonical(keys[0]) && AllCanonical(keys[1..])
    ensures SentAll(keys) + partial == Sent(keys[0]) + (SentAll(keys[1..]) + partial)
    ensures MeantAll(keys) == [Meant(keys[0])] + MeantAll(keys[1..])
  {
  }

  function Received(arrivals: seq<Arrival>): seq<byte> {
    if arrivals == [] then [] else arrivals[0].bytes + Received(arrivals[1..])
  }

  predicate Within(arrivals: seq<Arrival>, start: nat) {
    forall a :: a in arrivals ==> start <= a.now < start + HOLD
  }

  lemma {:induction false} MeantLength(keys: seq<Canonical>)
    requires AllCanonical(keys)
    ensures |MeantAll(keys)| == |keys| && forall i :: 0 <= i < |keys| ==> MeantAll(keys)[i] == Meant(keys[i])
  {
    if keys != [] {
      MeantLength(keys[1..]);
    }
  }

  lemma NobodyMeansEscape(key: Canonical)
    requires IsCanonical(key)
    ensures Meant(key) != ESCAPE_KEY
  {
  }

  /** Once a key has fallen apart, no later event makes up for it. */
  lemma FallenApart(events: seq<Event>, more: seq<Event>, keys: seq<Canonical>, n: nat)
    requires AllCanonical(keys) && n < |keys| && FallsApart(events, keys[..n])
    ensures events + more != MeantAll(keys)
  {
    MeantLength(keys);
    NobodyMeansEscape(keys[n]);
    assert (events + more)[n] == ESCAPE_KEY;
  }

  lemma RestReceived(held: seq<byte>, arrivals: seq<Arrival>, keys: seq<Canonical>)
    requires AllCanonical(keys) && arrivals != [] && held + Received(arrivals) == SentAll(keys)
    ensures
      var bytes := held + arrivals[0].bytes;
      var n := Complete(keys, bytes);
      && bytes == SentAll(keys[..n]) + Remainder(keys, bytes) && Partial(Remainder(keys, bytes), keys[n..])
      && Remainder(keys, bytes) + Received(arrivals[1..]) == SentAll(keys[n..])
      && MeantAll(keys) == MeantAll(keys[..n]) + MeantAll(keys[n..])
  {
    var (bytes, rest) := (held + arrivals[0].bytes, Received(arrivals[1..]));
    Grouped(held, arrivals[0].bytes, rest);
    RestOfKeys(bytes, rest, keys);
  }

  lemma RestOfKeys(bytes: seq<byte>, rest: seq<byte>, keys: seq<Canonical>)
    requires AllCanonical(keys) && bytes + rest == SentAll(keys)
    ensures
      var n := Complete(keys, bytes);
      && bytes == SentAll(keys[..n]) + Remainder(keys, bytes) && Partial(Remainder(keys, bytes), keys[n..])
      && Remainder(keys, bytes) + rest == SentAll(keys[n..])
      && MeantAll(keys) == MeantAll(keys[..n]) + MeantAll(keys[n..])
  {
    Beginning(bytes, rest, SentAll(keys));
    CompleteCuts(keys, bytes);
    KeysInTwo(keys, Complete(keys, bytes));
    CancelFirst(SentAll(keys[..Complete(keys, bytes)]), Remainder(keys, bytes), rest,
      SentAll(keys[Complete(keys, bytes)..]));
  }

  lemma Beginning(a: seq<byte>, b: seq<byte>, c: seq<byte>)
    requires a + b == c
    ensures a <= c
  {
  }

  lemma KeysInTwo(keys: seq<Canonical>, n: nat)
    requires AllCanonical(keys) && n <= |keys|
    ensures SentAll(keys) == SentAll(keys[..n]) + SentAll(keys[n..])
    ensures MeantAll(keys) == MeantAll(keys[..n]) + MeantAll(keys[n..])
  {
    assert keys == keys[..n] + keys[n..];
    SentAllConcat(keys[..n], keys[n..]);
  }

  lemma CancelFirst(a: seq<byte>, b: seq<byte>, c: seq<byte>, d: seq<byte>)
    requires a + b + c == a + d
    ensures b + c == d
  {
    assert b + c == (a + b + c)[|a|..] && d == (a + d)[|a|..];
  }

  /**
   However the bytes of any keys are cut into pieces and whenever these arrive, they decode to exactly those keys if
   and only if every time at which an escape key is still incomplete lies before the deadline in force. A session that
   decodes leaves nothing behind.
   */
  lemma {:induction false} CutKeysExactly(d: Decoder, keys: seq<Canonical>, arrivals: seq<Arrival>)
    requires AllCanonical(keys) && !d.paste && Partial(d.bytes, keys) && d.bytes + Received(arrivals) == SentAll(keys)
    ensures Session(d, arrivals).0 == MeantAll(keys) <==> InTime(d.deadline, keys, d.bytes, arrivals)
    ensures InTime(d.deadline, keys, d.bytes, arrivals) ==>
      Session(d, arrivals).1.bytes == [] && !Session(d, arrivals).1.paste
    decreases |arrivals|
  {
    if arrivals == [] {
      assert d.bytes + [] == d.bytes;
      NothingUnread(d.bytes, keys);
    } else {
      RestReceived(d.bytes, arrivals, keys);
      var (pushed, now) := (Push(d, arrivals[0].bytes), arrivals[0].now);
      var (n, left) := (Complete(keys, pushed.bytes), Remainder(keys, pushed.bytes));
      ReadsKeys(pushed, keys[..n], keys[n..], left, now);
      var force := InForce(d.deadline, keys[..n], left, now);
      var (events, after) := Drain(pushed, now);
      if Kept(force, left, now) {
        CutKeysExactly(after, keys[n..], arrivals[1..]);
        SameEvents(MeantAll(keys[..n]), Session(after, arrivals[1..]).0, MeantAll(keys[n..]));
      } else {
        FallenApart(events, Session(after, arrivals[1..]).0, keys, n);
      }
    }
  }

  lemma SameEvents(first: seq<Event>, a: seq<Event>, b: seq<Event>)
    ensures first + a == first + b <==> a == b
  {
    assert a == (first + a)[|first|..] && b == (first + b)[|first|..];
  }

  lemma NothingUnread(held: seq<byte>, keys: seq<Canonical>)
    requires AllCanonical(keys) && Partial(held, keys) && held == SentAll(keys)
    ensures held == [] && keys == []
  {
  }

  const IDLE: Decoder := Decoder([], false, None)

  /** An escape key within 30 ms of its first byte is never late, if no deadline is left from before. */
  predicate DeadlineFrom(deadline: Option<nat>, start: nat) { deadline.Some? ==> deadline.value >= start + HOLD }

  lemma {:induction false} WindowIsInTime(deadline: Option<nat>, keys: seq<Canonical>, held: seq<byte>,
      arrivals: seq<Arrival>, start: nat)
    requires AllCanonical(keys) && DeadlineFrom(deadline, start) && Within(arrivals, start)
    ensures InTime(deadline, keys, held, arrivals)
    decreases |arrivals|
  {
    if arrivals != [] {
      var (bytes, now) := (held + arrivals[0].bytes, arrivals[0].now);
      assert arrivals[0] in arrivals && Within(arrivals[1..], start);
      var (n, left) := (Complete(keys, bytes), Remainder(keys, bytes));
      WindowIsInTime(InForce(deadline, keys[..n], left, now), keys[n..], left, arrivals[1..], start);
    }
  }

  /** Keys whose bytes all arrive within 30 ms decode exactly, however they are cut. */
  lemma KeysDecodeExactly(keys: seq<Canonical>, arrivals: seq<Arrival>, start: nat)
    requires AllCanonical(keys) && Received(arrivals) == SentAll(keys) && Within(arrivals, start)
    ensures Session(IDLE, arrivals).0 == MeantAll(keys)
    ensures Session(IDLE, arrivals).1.bytes == [] && !Session(IDLE, arrivals).1.paste
  {
    assert IDLE.bytes + Received(arrivals) == SentAll(keys);
    WindowIsInTime(None, keys, [], arrivals, start);
    CutKeysExactly(IDLE, keys, arrivals);
  }

  // ----- Alt with any character

  predicate AltReadable(c: char) { 0x20 <= c as int < 0x80 && c != '[' && c != 'O' }

  /** What a character's bytes after the first are read as: a replacement character for each. */
  function Replacements(n: nat): seq<Event> { seq(n, _ => Key(Char('\U{FFFD}'), Plain)) }

  lemma {:induction false} ContinuationsFallApart(d: Decoder, now: nat)
    requires !d.paste && forall b :: b in d.bytes ==> Continuation(b)
    ensures Drain(d, now).0 == Replacements(|d.bytes|) && Drain(d, now).1.bytes == []
    decreases |d.bytes|
  {
    if d.bytes != [] {
      assert Continuation(d.bytes[0]);
      DrainsFirst(d, now);
      ContinuationsFallApart(Next(d, now).decoder, now);
      assert Replacements(|d.bytes|) == [Key(Char('\U{FFFD}'), Plain)] + Replacements(|d.bytes| - 1);
    }
  }

  lemma EncodedBytes(c: char)
    requires c as int >= 0x80
    ensures
      var bytes := EncodeChar(c);
      0xC2 <= bytes[0] <= 0xF4 && |bytes| > 1 && forall b :: b in bytes[1..] ==> Continuation(b)
  {
  }

  /** Alt with a character beyond ASCII falls apart into an Alt key nobody pressed and replacement characters. */
  lemma AltFallsApart(c: char, now: nat)
    requires c as int >= 0x80
    ensures
      var bytes := EncodeChar(c);
      Session(IDLE, [Arrival([ESC] + bytes, now)]).0 ==
        [Key(Char(bytes[0] as char), Alt)] + Replacements(|bytes| - 1)
  {
    EncodedBytes(c);
    var (first, rest) := (EncodeChar(c)[0], EncodeChar(c)[1..]);
    var d := Push(IDLE, [ESC] + EncodeChar(c));
    assert d.bytes == [ESC, first] + rest;
    NextIsAlt(d, first, rest, now);
    DrainsFirst(d, now);
    ContinuationsFallApart(Next(d, now).decoder, now);
    SessionOnce(d.bytes, now);
  }

  lemma SessionOnce(bytes: seq<byte>, now: nat)
    ensures Session(IDLE, [Arrival(bytes, now)]).0 == Drain(Push(IDLE, bytes), now).0
  {
    assert [Arrival(bytes, now)][1..] == [];
  }

  /** Alt with a character, sent as an escape and its bytes at once, is read exactly for these characters. */
  lemma AltCharacterExactly(c: char, now: nat)
    ensures Session(IDLE, [Arrival([ESC] + EncodeChar(c), now)]).0 == [Key(Char(c), Alt)] <==> AltReadable(c)
  {
    if c as int >= 0x80 {
      AltFallsApart(c, now);
    } else {
      AltAscii(c, now);
    }
  }

  lemma AltAscii(c: char, now: nat)
    requires c as int < 0x80
    ensures Session(IDLE, [Arrival([ESC] + EncodeChar(c), now)]).0 == [Key(Char(c), Alt)] <==> AltReadable(c)
  {
    var b: byte := c as int;
    var d := Push(IDLE, [ESC, b]);
    assert [ESC] + EncodeChar(c) == [ESC, b];
    SessionOnce([ESC, b], now);
    if AltReadable(c) {
      assert d.bytes == [ESC, b] + [];
      NextIsAlt(d, b, [], now);
      DrainsFirst(d, now);
    } else {
      NextNotAlt(b, now);
      var events := Drain(d, now).0;
      if Next(d, now).event.Some? {
        DrainsFirst(d, now);
        assert events[0] == Key(KeyCode.Esc, Plain);
      } else {
        assert events == [];
      }
    }
  }

  lemma NextNotAlt(b: byte, now: nat)
    requires b < 0x20 || b == 0x5b || b == 0x4f
    ensures var event := Next(Push(IDLE, [ESC, b]), now).event; event.Some? ==> event.value == Key(KeyCode.Esc, Plain)
  {
    SequencesAreLong();
  }

  /**
   Each escape key is complete within 30 ms of the arrival of its first byte, and no Alt key is cut. Between keys any
   time may pass. `since` is when the first byte of the key in progress arrived.
   */
  predicate Prompt(since: nat, keys: seq<Canonical>, held: seq<byte>, arrivals: seq<Arrival>)
    requires AllCanonical(keys)
    decreases |arrivals|
  {
    arrivals == [] ||
    var (bytes, now) := (held + arrivals[0].bytes, arrivals[0].now);
    var (n, left) := (Complete(keys, bytes), Remainder(keys, bytes));
    var first := if n == 0 && held != [] then since else now;
    && (Escaping(left) ==> now < first + HOLD && n < |keys| && !keys[n].AltByte?)
    && Prompt(first, keys[n..], left, arrivals[1..])
  }

  /** No deadline is left over: there is none, or it belongs to the escape key in progress. */
  predicate Fresh(deadline: Option<nat>, since: nat, keys: seq<Canonical>, held: seq<byte>) {
    if Escaping(held) then deadline == Some(since + HOLD) && keys != [] && !keys[0].AltByte? else deadline == None
  }

  lemma {:induction false} PromptIsInTime(deadline: Option<nat>, since: nat, keys: seq<Canonical>, held: seq<byte>,
      arrivals: seq<Arrival>)
    requires AllCanonical(keys) && Partial(held, keys) && held + Received(arrivals) == SentAll(keys)
    requires Fresh(deadline, since, keys, held) && Prompt(since, keys, held, arrivals)
    ensures InTime(deadline, keys, held, arrivals)
    decreases |arrivals|
  {
    if arrivals != [] {
      RestReceived(held, arrivals, keys);
      var (bytes, now) := (held + arrivals[0].bytes, arrivals[0].now);
      var (n, left) := (Complete(keys, bytes), Remainder(keys, bytes));
      var first := if n == 0 && held != [] then since else now;
      FreshAfter(deadline, since, keys, held, bytes, now);
      PromptIsInTime(InForce(deadline, keys[..n], left, now), first, keys[n..], left, arrivals[1..]);
    }
  }

  lemma FreshAfter(deadline: Option<nat>, since: nat, keys: seq<Canonical>, held: seq<byte>, bytes: seq<byte>, now: nat)
    requires AllCanonical(keys) && held <= bytes && Fresh(deadline, since, keys, held)
    ensures
      var (n, left) := (Complete(keys, bytes), Remainder(keys, bytes));
      var first := if n == 0 && held != [] then since else now;
      (Escaping(left) ==> n < |keys| && !keys[n].AltByte?) ==>
        Fresh(InForce(deadline, keys[..n], left, now), first, keys[n..], left)
  {
    var n := Complete(keys, bytes);
    if n == 0 {
      assert Remainder(keys, bytes) == bytes && keys[..0] == [];
      assert held != [] ==> bytes[0] == held[0];
    } else {
      assert keys[..n][0] == keys[0] && keys[0] in keys[..n];
    }
  }

  /** Keys that are each sent promptly decode exactly, whatever the pauses between them and however they are cut. */
  lemma PromptKeysDecode(keys: seq<Canonical>, arrivals: seq<Arrival>)
    requires AllCanonical(keys) && Received(arrivals) == SentAll(keys) && Prompt(0, keys, [], arrivals)
    ensures Session(IDLE, arrivals).0 == MeantAll(keys)
    ensures Session(IDLE, arrivals).1.bytes == [] && !Session(IDLE, arrivals).1.paste
  {
    assert IDLE.bytes + Received(arrivals) == SentAll(keys);
    PromptIsInTime(None, 0, keys, [], arrivals);
    CutKeysExactly(IDLE, keys, arrivals);
  }

  // ----- Pastes

  predicate Contains(bytes: seq<byte>, needle: seq<byte>) { Find(bytes, needle).Some? }

  /** The end marker overlaps no proper end of itself, so the first one found is the one sent. */
  lemma FindEnd(content: seq<byte>, rest: seq<byte>)
    requires !Contains(content, PASTE_END)
    ensures Find(content + PASTE_END + rest, PASTE_END) == Some(|content|)
  {
    var bytes := content + PASTE_END + rest;
    assert bytes[|content|..] == PASTE_END + rest;
    forall at | 0 <= at < |content| ensures !(PASTE_END <= bytes[at..]) {
      NotBefore(content, rest, at);
    }
  }

  lemma NotBefore(content: seq<byte>, rest: seq<byte>, at: nat)
    requires !Contains(content, PASTE_END) && at < |content|
    ensures !(PASTE_END <= (content + PASTE_END + rest)[at..])
  {
    var bytes := content + PASTE_END + rest;
    if at + |PASTE_END| <= |content| {
      assert bytes[at..][..|PASTE_END|] == content[at..][..|PASTE_END|];
      assert !(PASTE_END <= content[at..]);
    } else {
      var offset := |content| - at;
      assert bytes[at..][offset] == PASTE_END[0] != PASTE_END[offset];
    }
  }

  lemma FindInPrefix(bytes: seq<byte>, rest: seq<byte>, needle: seq<byte>)
    ensures Find(bytes, needle).Some? ==>
      Find(bytes + rest, needle).Some? && Find(bytes + rest, needle).value <= Find(bytes, needle).value
  {
    if Find(bytes, needle).Some? {
      var at := Find(bytes, needle).value;
      assert (bytes + rest)[at..] == bytes[at..] + rest;
      assert needle <= (bytes + rest)[at..];
    }
  }

  /** Nothing short of the whole marker is taken for it. */
  lemma NoEndYet(content: seq<byte>, bytes: seq<byte>)
    requires !Contains(content, PASTE_END) && bytes < content + PASTE_END
    ensures !Contains(bytes, PASTE_END)
  {
    var rest := (content + PASTE_END)[|bytes|..];
    assert bytes + rest == content + PASTE_END + [];
    FindEnd(content, []);
    FindInPrefix(bytes, rest, PASTE_END);
  }

  /** A paste that is pushed whole decodes to its text, whatever follows. */
  lemma WholePasteDecodes(d: Decoder, text: string, rest: seq<byte>, now: nat)
    requires !d.paste && d.bytes == PASTE_START + Encode(text) + PASTE_END + rest
    requires !Contains(Encode(text), PASTE_END)
    ensures Next(d, now) == Outcome(Some(Paste(text)), Decoder(rest, false, None))
  {
    LossyOfEncoded(text);
    WholeBytesDecode(d, Encode(text), rest, now);
  }

  lemma WholeBytesDecode(d: Decoder, content: seq<byte>, rest: seq<byte>, now: nat)
    requires !d.paste && d.bytes == PASTE_START + content + PASTE_END + rest
    requires !Contains(content, PASTE_END)
    ensures Next(d, now) == Outcome(Some(Paste(Lossy(content))), Decoder(rest, false, None))
  {
    var after := d.bytes[|PASTE_START|..];
    assert after == content + PASTE_END + rest;
    FindEnd(content, rest);
    assert after[..|content|] == content && after[|content| + |PASTE_END|..] == rest;
    assert PASTE_START <= d.bytes && d.bytes[0] == ESC;
  }

  /** Comparing two ways to cut the same bytes. */
  lemma SameBytes(a: seq<byte>, b: seq<byte>, c: seq<byte>, d: seq<byte>)
    requires a + b == c + d
    ensures |a| <= |c| ==> a <= c
    ensures |a| >= |c| ==> a == c + a[|c|..] && a[|c|..] + b == d
  {
    if |a| <= |c| {
      assert a == (a + b)[..|a|] == c[..|a|];
    } else {
      assert c == (a + b)[..|c|] == a[..|c|];
      assert a[|c|..] + b == (a + b)[|c|..] == d;
    }
  }

  lemma NextIsPaste(d: Decoder, content: seq<byte>, now: nat)
    requires d.paste && d.bytes == content + PASTE_END && !Contains(content, PASTE_END)
    ensures Next(d, now) == Outcome(Some(Paste(Lossy(content))), Decoder([], false, d.deadline))
  {
    assert d.bytes == content + PASTE_END + [];
    FindEnd(content, []);
    assert d.bytes[..|content|] == content && d.bytes[|content| + |PASTE_END|..] == [];
  }

  lemma PasteCompletes(d: Decoder, content: seq<byte>, now: nat)
    requires d.paste && d.bytes == content + PASTE_END && !Contains(content, PASTE_END)
    ensures Drain(d, now) == ([Paste(Lossy(content))], Decoder([], false, d.deadline))
  {
    NextIsPaste(d, content, now);
    DrainsOne(d, Decoder([], false, d.deadline), Paste(Lossy(content)), now);
  }

  lemma DrainsNothing(d: Decoder, now: nat)
    requires !d.paste && d.bytes == []
    ensures Drain(d, now) == ([], d)
  {
  }

  /** Once in paste mode, the content is collected however it is cut. */
  lemma {:induction false} PasteModeCollects(d: Decoder, content: seq<byte>, arrivals: seq<Arrival>)
    requires d.paste && d.bytes < content + PASTE_END && d.bytes + Received(arrivals) == content + PASTE_END
    requires !Contains(content, PASTE_END)
    ensures Session(d, arrivals).0 == [Paste(Lossy(content))]
    decreases |arrivals|
  {
    assert d.bytes + [] == d.bytes;
    if arrivals != [] {
      var (whole, rest) := (content + PASTE_END, arrivals[1..]);
      var pushed := Push(d, arrivals[0].bytes);
      assert pushed.bytes + Received(rest) == whole + [];
      SameBytes(pushed.bytes, Received(rest), whole, []);
      if |pushed.bytes| < |whole| {
        NoEndYet(content, pushed.bytes);
        assert Drain(pushed, arrivals[0].now) == ([], pushed);
        PasteModeCollects(pushed, content, rest);
      } else {
        PasteCompletes(pushed, content, arrivals[0].now);
        NothingArrives(Decoder([], false, d.deadline), rest);
      }
    }
  }

  lemma {:induction false} NothingArrives(d: Decoder, arrivals: seq<Arrival>)
    requires !d.paste && d.bytes == [] && Received(arrivals) == []
    ensures Session(d, arrivals) == ([], d)
    decreases |arrivals|
  {
    if arrivals != [] {
      assert Push(d, arrivals[0].bytes) == d;
      NothingArrives(d, arrivals[1..]);
    }
  }

  lemma StartMatchesNothing(bytes: seq<byte>)
    requires bytes < PASTE_START
    ensures Match(bytes, 0).None? && Begins(bytes)
  {
    SequencesAreLong();
  }

  lemma NextIsStart(d: Decoder, now: nat)
    requires !d.paste && d.bytes != [] && d.bytes < PASTE_START
    ensures
      var deadline := Held(d.deadline, now);
      if Expired(deadline, now) then Next(d, now).event == Some(ESCAPE_KEY)
      else Next(d, now) == Outcome(None, d.(deadline := deadline))
  {
    StartMatchesNothing(d.bytes);
  }

  /** What the decoder does with a completed paste start depends on the bytes that came with its end. */
  lemma StartCompletes(d: Decoder, leftover: seq<byte>, now: nat)
    requires !d.paste && d.bytes == PASTE_START + leftover && !Contains(leftover, PASTE_END)
    ensures
      if Begins(leftover) && !Expired(d.deadline, now) then
        Next(d, now) == Outcome(None, Decoder(leftover, true, Held(d.deadline, now)))
      else Next(d, now).event.Some? && Next(d, now).event.value.Key?
  {
    assert d.bytes[|PASTE_START|..] == leftover && d.bytes[0] == ESC;
    UnmatchedIsKey(Decoder(leftover, true, d.deadline), now);
  }

  lemma UnmatchedIsKey(d: Decoder, now: nat)
    ensures NextUnmatched(d, now).event.Some? ==> NextUnmatched(d, now).event.value.Key?
    ensures NextUnmatched(d, now).event.None? <==> Begins(d.bytes) && !Expired(d.deadline, now)
  {
  }

  /**
   While the paste start is incomplete, no deadline passes; and the piece that completes it also completes the end, or
   ends, before the deadline, with nothing but the possibly empty beginning of an escape sequence. `end` is what is to
   follow the paste start.
   */
  predicate StartInTime(deadline: Option<nat>, held: seq<byte>, end: seq<byte>, arrivals: seq<Arrival>)
    decreases |arrivals|
  {
    arrivals != [] &&
    var (bytes, now) := (held + arrivals[0].bytes, arrivals[0].now);
    if |bytes| >= |PASTE_START| then
      bytes[|PASTE_START|..] == end || (Begins(bytes[|PASTE_START|..]) && !Expired(deadline, now))
    else
      var force := if bytes == [] then deadline else Held(deadline, now);
      (bytes == [] || !Expired(force, now)) && StartInTime(force, bytes, end, arrivals[1..])
  }

  /**
   However a paste is cut, and whenever its pieces arrive, it decodes to its content exactly if its start is in time.
   */
  lemma {:induction false} SplitPasteExactly(d: Decoder, content: seq<byte>, arrivals: seq<Arrival>)
    requires !d.paste && d.bytes < PASTE_START && d.bytes + Received(arrivals) == PASTE_START + content + PASTE_END
    requires !Contains(content, PASTE_END)
    ensures Session(d, arrivals).0 == [Paste(Lossy(content))] <==>
      StartInTime(d.deadline, d.bytes, content + PASTE_END, arrivals)
    decreases |arrivals|, 0
  {
    if arrivals != [] {
      var pushed := Push(d, arrivals[0].bytes);
      var rest := Received(arrivals[1..]);
      Grouped(d.bytes, arrivals[0].bytes, rest);
      Grouped(PASTE_START, content, PASTE_END);
      SameBytes(pushed.bytes, rest, PASTE_START, content + PASTE_END);
      if |pushed.bytes| < |PASTE_START| {
        StartHeld(pushed, content, arrivals[1..], arrivals[0].now);
      } else {
        StartArrived(pushed, content, arrivals[1..], arrivals[0].now);
      }
    }
  }

  lemma StartHeld(d: Decoder, content: seq<byte>, arrivals: seq<Arrival>, now: nat)
    requires !d.paste && d.bytes < PASTE_START && d.bytes + Received(arrivals) == PASTE_START + content + PASTE_END
    requires !Contains(content, PASTE_END)
    ensures
      var (events, after) := Drain(d, now);
      var force := if d.bytes == [] then d.deadline else Held(d.deadline, now);
      events + Session(after, arrivals).0 == [Paste(Lossy(content))] <==>
      (d.bytes == [] || !Expired(force, now)) && StartInTime(force, d.bytes, content + PASTE_END, arrivals)
    decreases |arrivals|, 1
  {
    var (events, after) := Drain(d, now);
    if d.bytes == [] {
      SplitPasteExactly(d, content, arrivals);
      assert [] + Session(d, arrivals).0 == Session(d, arrivals).0;
    } else {
      NextIsStart(d, now);
      if Expired(Held(d.deadline, now), now) {
        DrainsFirst(d, now);
        assert (events + Session(after, arrivals).0)[0] == ESCAPE_KEY;
      } else {
        SplitPasteExactly(after, content, arrivals);
        assert [] + Session(after, arrivals).0 == Session(after, arrivals).0;
      }
    }
  }

  lemma StartArrived(d: Decoder, content: seq<byte>, arrivals: seq<Arrival>, now: nat)
    requires !d.paste && |d.bytes| >= |PASTE_START|
    requires d.bytes + Received(arrivals) == PASTE_START + content + PASTE_END
    requires !Contains(content, PASTE_END)
    ensures
      var (events, after) := Drain(d, now);
      var leftover := d.bytes[|PASTE_START|..];
      events + Session(after, arrivals).0 == [Paste(Lossy(content))] <==>
      leftover == content + PASTE_END || (Begins(leftover) && !Expired(d.deadline, now))
  {
    var leftover := d.bytes[|PASTE_START|..];
    Grouped(PASTE_START, content, PASTE_END);
    SameBytes(d.bytes, Received(arrivals), PASTE_START, content + PASTE_END);
    assert content + PASTE_END == content + PASTE_END + [];
    SameBytes(leftover, Received(arrivals), content + PASTE_END, []);
    if leftover == content + PASTE_END {
      assert d.bytes == PASTE_START + content + PASTE_END + [];
      WholeBytesDecode(d, content, [], now);
      DrainsNothing(Decoder([], false, None), now);
      NothingArrives(Drain(d, now).1, arrivals);
    } else {
      NoEndYet(content, leftover);
      StartCompletes(d, leftover, now);
      if Begins(leftover) && !Expired(d.deadline, now) {
        PasteModeCollects(Drain(d, now).1, content, arrivals);
      } else {
        DrainsFirst(d, now);
        var (events, after) := Drain(d, now);
        assert (events + Session(after, arrivals).0)[0] == events[0];
      }
    }
  }

  /** The smallest paste that is lost: its first content byte arrives with the paste start. */
  lemma SplitPasteLost()
    ensures
      var arrivals := [Arrival(PASTE_START + [0x61], 0), Arrival([0x62] + PASTE_END, 1)];
      Session(IDLE, arrivals).0 != [Paste("ab")]
  {
    var arrivals := [Arrival(PASTE_START + [0x61], 0), Arrival([0x62] + PASTE_END, 1)];
    var content := [0x61, 0x62];
    assert arrivals[1..] == [arrivals[1]] && arrivals[1..][1..] == [];
    assert Received(arrivals[1..]) == [0x62] + PASTE_END;
    assert Received(arrivals) == PASTE_START + [0x61] + ([0x62] + PASTE_END) == PASTE_START + content + PASTE_END;
    assert IDLE.bytes + Received(arrivals) == Received(arrivals);
    assert IDLE.bytes + arrivals[0].bytes == PASTE_START + [0x61];
    assert [] + arrivals[0].bytes == PASTE_START + [0x61] && (PASTE_START + [0x61])[|PASTE_START|..] == [0x61];
    SequencesAreLong();
    assert [0x61 as byte][0] != ESC;
    assert Encode("ab") == content && !Contains(content, PASTE_END);
    LossyOfEncoded("ab");
    SplitPasteExactly(IDLE, content, arrivals);
  }

  // ----- The escape deadline

  /** A lone escape is held until the deadline, and becomes the escape key from then on. */
  lemma EscapeHeldExactly(d: Decoder, now: nat)
    requires !d.paste && d.bytes == [ESC]
    ensures Next(d, now).event.None? <==> d.deadline.None? || now < d.deadline.value
    ensures Next(d, now).event.Some? ==> Next(d, now) == Outcome(Some(Key(KeyCode.Esc, Plain)), IDLE)
  {
  }

  /** An event ends the hold, except that Alt keys and completed pastes leave the deadline as it was. */
  lemma DeadlineAfterEvent(d: Decoder, now: nat)
    requires Next(d, now).event.Some?
    ensures
      var event := Next(d, now).event.value;
      Next(d, now).decoder.deadline ==
        if d.paste || (event.Key? && event.modifiers.Alt?) then d.deadline else None
  {
    if !d.paste && d.bytes[0] == ESC {
      EscapeDeadline(d, now);
    }
  }

  lemma EscapeDeadline(d: Decoder, now: nat)
    requires d.bytes != [] && NextEscape(d, now).event.Some?
    ensures
      var next := NextEscape(d, now);
      next.decoder.deadline == if next.event.value.Key? && next.event.value.modifiers.Alt? then d.deadline else None
  {
    if |d.bytes| > 1 && NextSequence(d).event.None? {
      SequenceConsumes(d);
      UnmatchedDeadline(NextSequence(d).decoder, now);
    } else {
      NoMappingIsAlt();
    }
  }

  lemma NoMappingIsAlt()
    ensures forall i :: 0 <= i < |SEQUENCES| ==> !SEQUENCES[i].modifiers.Alt?
  {
  }

  lemma UnmatchedDeadline(d: Decoder, now: nat)
    requires NextUnmatched(d, now).event.Some?
    ensures
      var event := NextUnmatched(d, now).event.value;
      NextUnmatched(d, now).decoder.deadline == if event.Key? && event.modifiers.Alt? then d.deadline else None
  {
    if |d.bytes| > 1 && d.bytes[1] != 0x5b && d.bytes[1] != 0x4f {
      AltMatchesNothing(d.bytes);
    }
  }

  const ALT_THEN_UP: seq<Arrival> :=
    [Arrival([ESC], 0), Arrival([0x78], 10), Arrival([ESC], 100), Arrival([0x5b, 0x41], 101)]

  /** Alt-x cut after its escape leaves a deadline behind, so a later cut arrow key falls apart. */
  lemma StaleDeadlineSplitsKeys()
    ensures Received(ALT_THEN_UP) == SentAll([AltByte(0x78), Mapped(0)])
    ensures Session(IDLE, ALT_THEN_UP).0 ==
      [Key(Char('x'), Alt), Key(KeyCode.Esc, Plain), Key(Char('['), Plain), Key(Char('A'), Plain)]
  {
    AltThenUpSent();
    AltLeavesDeadline();
    UpFallsApart();
    var (held, stale) := (Decoder([ESC], false, Some(30)), Decoder([], false, Some(30)));
    SessionFirst(IDLE, ALT_THEN_UP, [], held);
    SessionFirst(held, ALT_THEN_UP[1..], [Key(Char('x'), Alt)], stale);
    assert ALT_THEN_UP[1..][1..] == ALT_THEN_UP[2..];
  }

  lemma AltThenUpSent()
    ensures Received(ALT_THEN_UP) == SentAll([AltByte(0x78), Mapped(0)])
  {
    var a := ALT_THEN_UP;
    assert a[1..][1..] == a[2..] && a[2..][1..] == a[3..] && a[3..][1..] == [];
    assert Received(a[3..]) == [0x5b, 0x41] && Received(a[2..]) == [ESC, 0x5b, 0x41];
    assert Received(a[1..]) == [0x78, ESC, 0x5b, 0x41];
    assert SentAll([Mapped(0)]) == [ESC, 0x5b, 0x41] && [AltByte(0x78), Mapped(0)][1..] == [Mapped(0)];
  }

  lemma SessionFirst(d: Decoder, arrivals: seq<Arrival>, events: seq<Event>, after: Decoder)
    requires arrivals != [] && Drain(Push(d, arrivals[0].bytes), arrivals[0].now) == (events, after)
    ensures Session(d, arrivals).0 == events + Session(after, arrivals[1..]).0
  {
  }

  lemma AltLeavesDeadline()
    ensures Drain(Push(IDLE, [ESC]), 0) == ([], Decoder([ESC], false, Some(30)))
    ensures Drain(Push(Decoder([ESC], false, Some(30)), [0x78]), 10)
         == ([Key(Char('x'), Alt)], Decoder([], false, Some(30)))
  {
    assert Push(IDLE, [ESC]).bytes == [ESC];
    var d := Push(Decoder([ESC], false, Some(30)), [0x78]);
    assert d.bytes == [ESC, 0x78] + [];
    NextIsAlt(d, 0x78, [], 10);
    DrainsOne(d, Decoder([], false, Some(30)), Key(Char('x'), Alt), 10);
  }

  lemma UpFallsApart()
    ensures Session(Decoder([], false, Some(30)), ALT_THEN_UP[2..]).0 ==
      [Key(KeyCode.Esc, Plain), Key(Char('['), Plain), Key(Char('A'), Plain)]
  {
    var stale := Decoder([], false, Some(30));
    var d := Push(stale, [ESC]);
    assert d.bytes == [ESC];
    DrainsOne(d, IDLE, Key(KeyCode.Esc, Plain), 100);
    SessionFirst(stale, ALT_THEN_UP[2..], [Key(KeyCode.Esc, Plain)], IDLE);
    BracketAndLetter();
    var last := ALT_THEN_UP[2..][1..];
    assert last == [ALT_THEN_UP[3]] && last[1..] == [];
  }

  lemma DrainsOne(d: Decoder, after: Decoder, event: Event, now: nat)
    requires Next(d, now) == Outcome(Some(event), after) && !after.paste && after.bytes == []
    ensures Drain(d, now) == ([event], after)
  {
    DrainsFirst(d, now);
    DrainsNothing(after, now);
    assert [event] + [] == [event];
  }

  lemma BracketAndLetter()
    ensures Drain(Push(IDLE, [0x5b, 0x41]), 101).0 == [Key(Char('['), Plain), Key(Char('A'), Plain)]
  {
    var d := Push(IDLE, [0x5b, 0x41]);
    assert d.bytes == [0x5b, 0x41];
    assert Next(d, 101) == Outcome(Some(Key(Char('['), Plain)), Decoder([0x41], false, None));
    DrainsFirst(d, 101);
    DrainsOne(Decoder([0x41], false, None), IDLE, Key(Char('A'), Plain), 101);
  }

  // ----- The decoder in place

  class InputDecoder {
    var bytes: seq<byte>
    var paste: bool
    var deadline: Option<nat>

    function State(): Decoder
      reads this
    {
      Decoder(bytes, paste, deadline)
    }

    constructor ()
      ensures State() == IDLE
    {
      bytes, paste, deadline := [], false, None;
    }

    method PushBytes(more: seq<byte>)
      modifies this
      ensures State() == Push(old(State()), more)
    {
      bytes := bytes + more;
    }

    /** How long the caller may wait for more bytes before it has to ask again. */
    method TimeoutUntilEscape(now: nat) returns (wait: Option<nat>)
      ensures wait.Some? <==> deadline.Some?
      ensures wait.Some? && Expired(deadline, now) ==> wait.value == 0
      ensures wait.Some? && !Expired(deadline, now) ==> now + wait.value == deadline.value
    {
      if deadline.None? {
        return None;
      }
      return Some(if deadline.value > now then deadline.value - now else 0);
    }

    method StartsWith(expected: seq<byte>) returns (r: bool)
      ensures r <==> expected <= bytes
    {
      r := |bytes| >= |expected| && bytes[..|expected|] == expected;
    }

    method Take(count: nat) returns (taken: seq<byte>)
      requires count <= |bytes|
      modifies this`bytes
      ensures taken == old(bytes)[..count] && bytes == old(bytes)[count..]
    {
      taken := bytes[..count];
      bytes := bytes[count..];
    }

    /** Compares every window of the needle's length. */
    method FindSubslice(needle: seq<byte>) returns (at: Option<nat>)
      ensures at == Find(bytes, needle)
    {
      if needle == [] || |bytes| < |needle| {
        return None;
      }
      for i := 0 to |bytes| - |needle| + 1
        invariant forall j :: 0 <= j < i ==> !(needle <= bytes[j..])
      {
        assert bytes[i..][..|needle|] == bytes[i..i + |needle|];
        if bytes[i..i + |needle|] == needle {
          return Some(i);
        }
      }
      return None;
    }

    method NextEvent(now: nat) returns (event: Option<Event>)
      modifies this
      ensures Outcome(event, State()) == Next(old(State()), now)
      decreases !paste
    {
      if paste {
        event := ReadPaste();
        return;
      }
      if bytes == [] {
        return None;
      }
      if bytes[0] == ESC {
        event := ReadEscape(now);
        return;
      }
      deadline := None;
      event := ReadPlain();
    }

    method ReadPaste() returns (event: Option<Event>)
      requires paste
      modifies this
      ensures Outcome(event, State()) == NextPaste(old(State()))
    {
      var end := FindSubslice(PASTE_END);
      if end.None? {
        return None;
      }
      var text := Take(end.value);
      var _ := Take(|PASTE_END|);
      paste := false;
      return Some(Paste(Lossy(text)));
    }

    method ReadEscape(now: nat) returns (event: Option<Event>)
      requires !paste && bytes != [] && bytes[0] == ESC
      modifies this
      ensures Outcome(event, State()) == NextEscape(old(State()), now)
      decreases true, 1
    {
      if |bytes| == 1 {
        if deadline.None? {
          deadline := Some(now + HOLD);
        }
        if now < deadline.value {
          return None;
        }
        bytes, deadline := [], None;
        return Some(Key(KeyCode.Esc, Plain));
      }
      event := EscapeSequence();
      if event.Some? {
        deadline := None;
        return;
      }
      event := ReadUnmatched(now);
    }

    /** Reached with the bytes after a paste start as well, when no end marker has arrived. */
    method ReadUnmatched(now: nat) returns (event: Option<Event>)
      modifies this
      ensures Outcome(event, State()) == NextUnmatched(old(State()), now)
    {
      var prefix := EscapeSequencePrefix();
      if prefix {
        if deadline.None? {
          deadline := Some(now + HOLD);
        }
        if now < deadline.value {
          return None;
        }
      }
      if |bytes| > 1 && bytes[1] >= 0x20 && bytes[1] != 0x5b && bytes[1] != 0x4f {
        var byte := bytes[1];
        bytes := bytes[2..];
        return Some(Key(Char(byte as char), Alt));
      }
      if bytes != [] {
        bytes := bytes[1..];
      }
      deadline := None;
      return Some(Key(KeyCode.Esc, Plain));
    }

    method EscapeSequence() returns (event: Option<Event>)
      requires !paste
      modifies this
      ensures Outcome(event, State()) == NextSequence(old(State()))
      decreases true, 0
    {
      var start := StartsWith(PASTE_START);
      if start {
        var _ := Take(|PASTE_START|);
        paste := true;
        event := NextEvent(0);
        return;
      }
      for i := 0 to |SEQUENCES|
        invariant State() == old(State())
        invariant Match(bytes, 0) == Match(bytes, i)
      {
        var found := StartsWith(SEQUENCES[i].bytes);
        if found {
          var _ := Take(|SEQUENCES[i].bytes|);
          return Some(Key(SEQUENCES[i].code, SEQUENCES[i].modifiers));
        }
      }
      return None;
    }

    method EscapeSequencePrefix() returns (prefix: bool)
      ensures prefix <==> Begins(bytes)
    {
      if |bytes| < |PASTE_START| && bytes == PASTE_START[..|bytes|] {
        return true;
      }
      for i := 0 to |SEQUENCES|
        invariant forall j :: 0 <= j < i ==> !(bytes < SEQUENCES[j].bytes)
      {
        if |bytes| < |SEQUENCES[i].bytes| && bytes == SEQUENCES[i].bytes[..|bytes|] {
          return true;
        }
      }
      return false;
    }

    method ReadPlain() returns (event: Option<Event>)
      requires bytes != []
      modifies this
      ensures Outcome(event, State()) == NextPlain(old(State()))
    {
      var first := bytes[0];
      if first >= 0x80 {
        event := ReadUtf8();
        return;
      }
      bytes := bytes[1..];
      if first == 0x0d || first == 0x0a {
        return Some(Key(Enter, Plain));
      } else if first == 0x09 {
        return Some(Key(Tab, Plain));
      } else if first == 0x7f || first == 0x08 {
        return Some(Key(Backspace, Plain));
      } else if first <= 0x1a {
        return Some(Key(Char(if first == 0 then '@' else (first + 0x61 - 1) as char), Control));
      }
      return Some(Key(Char(first as char), Plain));
    }

    method ReadUtf8() returns (event: Option<Event>)
      requires bytes != []
      modifies this
      ensures Outcome(event, State()) == NextUtf8(old(State()))
    {
      match First(bytes)
      case Scalar(c, len) =>
        var _ := Take(len);
        return Some(Key(Char(c), Plain));
      case Incomplete =>
        return None;
      case Invalid(_) =>
        bytes := bytes[1..];
        return Some(Key(Char('\U{FFFD}'), Plain));
    }

    /** The host's loop: reads events until the decoder has none. */
    method DrainEvents(now: nat) returns (events: seq<Event>)
      modifies this
      ensures (events, State()) == Drain(old(State()), now)
    {
      events := [];
      var more := true;
      assert events + Drain(State(), now).0 == Drain(State(), now).0;
      while more
        invariant more ==> Drain(old(State()), now) == (events + Drain(State(), now).0, Drain(State(), now).1)
        invariant !more ==> Drain(old(State()), now) == (events, State())
        decreases more, |bytes|
      {
        EventsConsume(State(), now);
        ghost var before := State();
        var event := NextEvent(now);
        if event.None? {
          assert events + [] == events;
          more := false;
        } else {
          DrainsFirst(before, now);
          assert events + ([event.value] + Drain(State(), now).0) == events + [event.value] + Drain(State(), now).0;
          events := events + [event.value];
        }
      }
    }
  }
}
