/**
 The stream that copies cached events into the binary log file and completes them on the way:
 end position, length and checksum. Events arrive cut into buffers in any way.
 */
module EventWriter {
  type Byte = b: int | 0 <= b < 0x100

  const WORD := 0x1_0000_0000
  type Word = w: int | 0 <= w < WORD

  const HEADER_LEN := 19
  const EVENT_LEN_OFFSET := 9
  const LOG_POS_OFFSET := 13
  const CHECKSUM_LEN := 4

  // The checksum algorithm: a step per byte from an initial value.
  datatype Checksum = Checksum(initial: Word, step: (Word, Byte) -> Word)
  {
    function Of(c: Word, bytes: seq<Byte>): Word {
      if bytes == [] then c else step(Of(c, bytes[..|bytes| - 1]), bytes[|bytes| - 1])
    }
  }

  lemma {:induction false} ChecksumConcat(alg: Checksum, c: Word, a: seq<Byte>, b: seq<Byte>)
    ensures alg.Of(c, a + b) == alg.Of(alg.Of(c, a), b)
  {
    if b == [] {
      assert a + b == a;
    } else {
      ChecksumConcat(alg, c, a, b[..|b| - 1]);
      assert (a + b)[..|a + b| - 1] == a + b[..|b| - 1];
    }
  }

  /******* Four-byte fields, least significant byte first *******/

  function Store(w: nat, n: nat): (bytes: seq<Byte>)
    ensures |bytes| == n
  {
    if n == 0 then [] else [w % 0x100] + Store(w / 0x100, n - 1)
  }

  function Load(bytes: seq<Byte>): nat {
    if bytes == [] then 0 else bytes[0] as int + 0x100 * Load(bytes[1..])
  }

  function Power(n: nat): nat {
    if n == 0 then 1 else 0x100 * Power(n - 1)
  }

  lemma {:induction false} LoadStore(w: nat, n: nat)
    requires w < Power(n)
    ensures Load(Store(w, n)) == w
  {
    if n > 0 {
      LoadStore(w / 0x100, n - 1);
      assert Store(w, n)[1..] == Store(w / 0x100, n - 1);
    }
  }

  lemma {:induction false} LoadBound(bytes: seq<Byte>)
    ensures Load(bytes) < Power(|bytes|)
  {
    if bytes != [] {
      LoadBound(bytes[1..]);
    }
  }

  lemma PowerFour()
    ensures Power(4) == WORD
  {
    assert Power(2) == 0x1_0000;
    assert Power(3) == 0x100_0000;
  }

  function Store4(w: Word): (bytes: seq<Byte>)
    ensures |bytes| == 4 && Load4(bytes) == w
  {
    PowerFour();
    LoadStore(w, 4);
    Store(w, 4)
  }

  function Load4(bytes: seq<Byte>): Word
    requires |bytes| == 4
  {
    PowerFour();
    LoadBound(bytes);
    Load(bytes)
  }

  // The 32-bit value of x: reduced by whole words until it fits.
  function Wrap(x: int): Word
    decreases if x < 0 then WORD - x else x
  {
    if x < 0 then Wrap(x + WORD) else if x < WORD then x else Wrap(x - WORD)
  }

  lemma {:induction false} WrapIsModulo(x: int)
    ensures Wrap(x) == x % WORD
    decreases if x < 0 then WORD - x else x
  {
    if x < 0 {
      WrapIsModulo(x + WORD);
    } else if x >= WORD {
      WrapIsModulo(x - WORD);
    }
  }

  lemma {:induction false} WrapAdd(a: nat, b: nat)
    ensures Wrap(Wrap(a) + b) == Wrap(a + b)
    decreases a
  {
    if a >= WORD {
      WrapAdd(a - WORD, b);
    }
  }

  function Field(header: seq<Byte>, offset: nat): Word
    requires offset + 4 <= |header|
  {
    Load4(header[offset..offset + 4])
  }

  function Overlay(header: seq<Byte>, offset: nat, bytes: seq<Byte>): (header': seq<Byte>)
    requires offset + |bytes| <= |header|
    ensures |header'| == |header|
    ensures forall k :: 0 <= k < |header| ==>
      header'[k] == if offset <= k < offset + |bytes| then bytes[k - offset] else header[k]
    decreases |bytes|
  {
    if bytes == [] then header else Overlay(header[offset := bytes[0]], offset + 1, bytes[1..])
  }

  function WithField(header: seq<Byte>, offset: nat, w: Word): (header': seq<Byte>)
    requires offset + 4 <= |header|
    ensures |header'| == |header| && Field(header', offset) == w
  {
    var header' := Overlay(header, offset, Store4(w));
    assert header'[offset..offset + 4] == Store4(w);
    header'
  }

  lemma OtherField(header: seq<Byte>, offset: nat, w: Word, other: nat)
    requires offset + 4 <= |header| && other + 4 <= |header|
    requires other + 4 <= offset || offset + 4 <= other
    ensures Field(WithField(header, offset, w), other) == Field(header, other)
  {
    assert WithField(header, offset, w)[other..other + 4] == header[other..other + 4];
  }

  /******* Byte by byte *******/

  datatype Writer = Writer(out: seq<Byte>, checksum: Word, endLogPos: Word, header: seq<Byte>, eventLen: Word)

  datatype Setup = Setup(alg: Checksum, haveChecksum: bool)
  {
    function Extra(): nat {
      if haveChecksum then CHECKSUM_LEN else 0
    }
  }

  // The header of an event, complete but for its length and position.
  function Updated(setup: Setup, header: seq<Byte>, endLogPos: Word): (header': seq<Byte>)
    requires |header| == HEADER_LEN
    ensures |header'| == HEADER_LEN
  {
    var len := Field(header, EVENT_LEN_OFFSET);
    WithField(if setup.haveChecksum then WithField(header, EVENT_LEN_OFFSET, Wrap(len + CHECKSUM_LEN)) else header,
              LOG_POS_OFFSET, endLogPos)
  }

  function HeaderWritten(
    setup: Setup, out: seq<Byte>, checksum: Word, header: seq<Byte>, endLogPos: Word, bodyLen: Word): Writer
  {
    Writer(out + header, if setup.haveChecksum then setup.alg.Of(checksum, header) else checksum,
           endLogPos, [], bodyLen)
  }

  // The header is written; len is what its length field says.
  function HeaderOf(setup: Setup, s: Writer, len: Word): Writer
    requires |s.header| == HEADER_LEN
  {
    var endLogPos := Wrap(s.endLogPos + (len + setup.Extra()));
    HeaderWritten(setup, s.out, s.checksum, Updated(setup, s.header, endLogPos), endLogPos, Wrap(len - HEADER_LEN))
  }

  function UpdateHeader(setup: Setup, s: Writer): Writer
    requires |s.header| == HEADER_LEN
  {
    HeaderOf(setup, s, Field(s.header, EVENT_LEN_OFFSET))
  }

  function FinishEvent(setup: Setup, s: Writer): Writer {
    if setup.haveChecksum && s.eventLen == 0 then s.(out := s.out + Store4(s.checksum), checksum := setup.alg.initial)
    else s
  }

  function Feed(setup: Setup, s: Writer, b: Byte): Writer
    requires |s.header| < HEADER_LEN
  {
    if s.eventLen == 0 then
      var header := s.header + [b];
      if |header| == HEADER_LEN then UpdateHeader(setup, s.(header := header)) else s.(header := header)
    else
      FinishEvent(setup, s.(out := s.out + [b], eventLen := s.eventLen - 1,
        checksum := if setup.haveChecksum then setup.alg.step(s.checksum, b) else s.checksum))
  }

  function FeedAll(setup: Setup, s: Writer, bytes: seq<Byte>): (s': Writer)
    requires |s.header| < HEADER_LEN
    ensures |s'.header| < HEADER_LEN
  {
    if bytes == [] then s else Feed(setup, FeedAll(setup, s, bytes[..|bytes| - 1]), bytes[|bytes| - 1])
  }

  lemma {:induction false} FeedConcat(setup: Setup, s: Writer, a: seq<Byte>, b: seq<Byte>)
    requires |s.header| < HEADER_LEN
    ensures FeedAll(setup, s, a + b) == FeedAll(setup, FeedAll(setup, s, a), b)
  {
    if b == [] {
      assert a + b == a;
    } else {
      FeedConcat(setup, s, a, b[..|b| - 1]);
      assert (a + b)[..|a + b| - 1] == a + b[..|b| - 1];
    }
  }

  lemma FeedNext(setup: Setup, s: Writer, buffer: seq<Byte>, done: nat, n: nat)
    requires |s.header| < HEADER_LEN && done + n <= |buffer|
    ensures FeedAll(setup, FeedAll(setup, s, buffer[..done]), buffer[done..][..n]) ==
      FeedAll(setup, s, buffer[..done + n])
  {
    FeedConcat(setup, s, buffer[..done], buffer[done..][..n]);
    assert buffer[..done + n] == buffer[..done] + buffer[done..][..n];
  }

  // Part of a header goes to the header buffer.
  lemma {:induction false} FeedHeaderPart(setup: Setup, s: Writer, bytes: seq<Byte>)
    requires s.eventLen == 0 && |s.header| + |bytes| < HEADER_LEN
    ensures FeedAll(setup, s, bytes) == s.(header := s.header + bytes)
  {
    if bytes != [] {
      FeedHeaderPart(setup, s, bytes[..|bytes| - 1]);
      assert s.header + bytes == s.header + bytes[..|bytes| - 1] + [bytes[|bytes| - 1]];
    } else {
      assert s.header + bytes == s.header;
    }
  }

  // What the next bytes of a header do.
  function HeaderPart(setup: Setup, s: Writer, bytes: seq<Byte>): Writer
    requires |s.header| + |bytes| <= HEADER_LEN
  {
    var t := s.(header := s.header + bytes);
    if |t.header| == HEADER_LEN then UpdateHeader(setup, t) else t
  }

  lemma FeedHeader(setup: Setup, s: Writer, bytes: seq<Byte>)
    requires s.eventLen == 0 && |s.header| < HEADER_LEN
    requires 0 < |bytes| <= HEADER_LEN - |s.header|
    ensures FeedAll(setup, s, bytes) == HeaderPart(setup, s, bytes)
  {
    var init := bytes[..|bytes| - 1];
    FeedHeaderPart(setup, s, init);
    assert s.header + bytes == s.header + init + [bytes[|bytes| - 1]];
    FeedLast(setup, s.(header := s.header + init), bytes[|bytes| - 1]);
  }

  lemma FeedLast(setup: Setup, s: Writer, b: Byte)
    requires s.eventLen == 0 && |s.header| < HEADER_LEN
    ensures Feed(setup, s, b) == HeaderPart(setup, s, [b])
  {
  }

  // Part of a body is copied.
  function CopyBody(setup: Setup, s: Writer, bytes: seq<Byte>): Writer
    requires |bytes| <= s.eventLen
  {
    s.(out := s.out + bytes, eventLen := s.eventLen - |bytes|,
       checksum := if setup.haveChecksum then setup.alg.Of(s.checksum, bytes) else s.checksum)
  }

  lemma {:induction false} FeedBodyPart(setup: Setup, s: Writer, bytes: seq<Byte>)
    requires |s.header| < HEADER_LEN && |bytes| < s.eventLen
    ensures FeedAll(setup, s, bytes) == CopyBody(setup, s, bytes)
  {
    if bytes != [] {
      FeedBodyPart(setup, s, bytes[..|bytes| - 1]);
      assert s.out + bytes == s.out + bytes[..|bytes| - 1] + [bytes[|bytes| - 1]];
    } else {
      assert s.out + bytes == s.out;
    }
  }

  function BodyPart(setup: Setup, s: Writer, bytes: seq<Byte>): Writer
    requires |bytes| <= s.eventLen
  {
    FinishEvent(setup, CopyBody(setup, s, bytes))
  }

  lemma FeedBody(setup: Setup, s: Writer, bytes: seq<Byte>)
    requires |s.header| < HEADER_LEN && 0 < |bytes| <= s.eventLen
    ensures FeedAll(setup, s, bytes) == BodyPart(setup, s, bytes)
  {
    FeedBodyPart(setup, s, bytes[..|bytes| - 1]);
    assert s.out + bytes == s.out + bytes[..|bytes| - 1] + [bytes[|bytes| - 1]];
  }

  /******* Whole events *******/

  datatype Event = Event(header: seq<Byte>, body: seq<Byte>)
  {
    // The length field counts the event's bytes, and there is room for the checksum in it.
    predicate WellFormed() {
      && |header| == HEADER_LEN && HEADER_LEN + |body| + CHECKSUM_LEN < WORD
      && Field(header, EVENT_LEN_OFFSET) == HEADER_LEN + |body|
    }

    function Bytes(): seq<Byte> {
      header + body
    }
  }

  ghost predicate AllWellFormed(events: seq<Event>) {
    forall k :: 0 <= k < |events| ==> events[k].WellFormed()
  }

  function Stream(events: seq<Event>): seq<Byte> {
    if events == [] then [] else Stream(events[..|events| - 1]) + events[|events| - 1].Bytes()
  }

  // The header of an event that is to be the next one in the file.
  function HeaderAt(setup: Setup, file: seq<Byte>, e: Event): (header: seq<Byte>)
    requires e.WellFormed()
    ensures |header| == HEADER_LEN
  {
    Updated(setup, e.header, Wrap(|file| + (|e.Bytes()| + setup.Extra())))
  }

  // What the event looks like there, checksum and all.
  function Written(setup: Setup, file: seq<Byte>, e: Event): seq<Byte>
    requires e.WellFormed()
  {
    var header := HeaderAt(setup, file, e);
    header + e.body + if setup.haveChecksum then Store4(setup.alg.Of(setup.alg.initial, header + e.body)) else []
  }

  // The file after an event has been appended to it.
  function Appended(setup: Setup, file: seq<Byte>, e: Event): seq<Byte>
    requires e.WellFormed()
  {
    file + Written(setup, file, e)
  }

  function AllAppended(setup: Setup, file: seq<Byte>, events: seq<Event>): seq<Byte>
    requires AllWellFormed(events)
  {
    if events == [] then file
    else Appended(setup, AllAppended(setup, file, events[..|events| - 1]), events[|events| - 1])
  }

  // The writer when it starts on a file, and between events.
  function Idle(setup: Setup, file: seq<Byte>): Writer {
    Writer(file, setup.alg.initial, Wrap(|file|), [], 0)
  }

  // A body the writer completes with a checksum.
  predicate Complete(setup: Setup, e: Event) {
    setup.haveChecksum ==> e.body != []
  }

  function AfterHeader(setup: Setup, out: seq<Byte>, checksum: Word, e: Event): Writer
    requires e.WellFormed()
  {
    HeaderWritten(setup, out, checksum, HeaderAt(setup, out, e), Wrap(|out| + (|e.Bytes()| + setup.Extra())), |e.body|)
  }

  lemma HeaderComesIn(setup: Setup, s: Writer, e: Event)
    requires e.WellFormed() && s.header == e.header && s.endLogPos == Wrap(|s.out|)
    ensures UpdateHeader(setup, s) == AfterHeader(setup, s.out, s.checksum, e)
  {
    LongHeaderComesIn(setup, s, e, |e.Bytes()|);
  }

  lemma LongHeaderComesIn(setup: Setup, s: Writer, e: Event, len: Word)
    requires e.WellFormed() && len == |e.Bytes()|
    requires s.header == e.header && s.endLogPos == Wrap(|s.out|)
    ensures HeaderOf(setup, s, len) == AfterHeader(setup, s.out, s.checksum, e)
  {
    EndAndLength(|s.out|, |e.body|, setup.Extra());
  }

  lemma EndAndLength(end: nat, bodyLen: nat, extra: nat)
    requires HEADER_LEN + bodyLen < WORD
    ensures Wrap(Wrap(end) + (HEADER_LEN + bodyLen + extra)) == Wrap(end + (HEADER_LEN + bodyLen + extra))
    ensures Wrap(HEADER_LEN + bodyLen - HEADER_LEN) == bodyLen
  {
    WrapAdd(end, HEADER_LEN + bodyLen + extra);
    SmallWrap(bodyLen);
  }

  lemma {:induction false} WrapAtMost(x: nat)
    ensures Wrap(x) <= x
  {
    if x >= WORD {
      WrapAtMost(x - WORD);
    }
  }

  lemma SmallWrap(x: int)
    requires 0 <= x < WORD
    ensures Wrap(x) == x
  {
  }

  // The writer after the header of an event has come in, with any checksum it has kept.
  lemma FeedEventHeader(setup: Setup, s: Writer, e: Event)
    requires e.WellFormed() && s.header == [] && s.eventLen == 0 && s.endLogPos == Wrap(|s.out|)
    ensures FeedAll(setup, s, e.header) == AfterHeader(setup, s.out, s.checksum, e)
  {
    FeedHeader(setup, s, e.header);
    assert [] + e.header == e.header;
    HeaderComesIn(setup, s.(header := e.header), e);
  }

  lemma FeedEvent(setup: Setup, file: seq<Byte>, e: Event)
    requires e.WellFormed() && Complete(setup, e)
    ensures FeedAll(setup, Idle(setup, file), e.Bytes()) == Idle(setup, Appended(setup, file, e))
  {
    var s := Idle(setup, file);
    FeedEventHeader(setup, s, e);
    FeedConcat(setup, s, e.header, e.body);
    if e.body != [] {
      FeedEventBody(setup, file, e);
    } else {
      var header := HeaderAt(setup, file, e);
      assert header + [] + [] == header;
      assert Written(setup, file, e) == header;
    }
  }

  lemma BodyComesIn(setup: Setup, out: seq<Byte>, checksum: Word, endLogPos: Word, body: seq<Byte>)
    requires |body| < WORD
    ensures
      var tail := if setup.haveChecksum then Store4(setup.alg.Of(checksum, body)) else [];
      BodyPart(setup, Writer(out, checksum, endLogPos, [], |body|), body) ==
        Writer(out + body + tail, if setup.haveChecksum then setup.alg.initial else checksum, endLogPos, [], 0)
  {
    assert out + body + [] == out + body;
  }

  lemma FeedEventBody(setup: Setup, file: seq<Byte>, e: Event)
    requires e.WellFormed() && e.body != []
    ensures FeedAll(setup, AfterHeader(setup, file, setup.alg.initial, e), e.body) ==
      Idle(setup, Appended(setup, file, e))
  {
    var header := HeaderAt(setup, file, e);
    BodyOfEvent(setup, file, header, Wrap(|file| + (|e.Bytes()| + setup.Extra())), e.body);
    AppendedSize(setup, file, e);
  }

  lemma BodyOfEvent(setup: Setup, file: seq<Byte>, header: seq<Byte>, endLogPos: Word, body: seq<Byte>)
    requires 0 < |body| < WORD
    ensures
      var alg := setup.alg;
      var tail := if setup.haveChecksum then Store4(alg.Of(alg.initial, header + body)) else [];
      FeedAll(setup, HeaderWritten(setup, file, alg.initial, header, endLogPos, |body|), body) ==
        Writer(file + (header + body + tail), alg.initial, endLogPos, [], 0)
  {
    var s := HeaderWritten(setup, file, setup.alg.initial, header, endLogPos, |body|);
    FeedBody(setup, s, body);
    BodyComesIn(setup, s.out, s.checksum, s.endLogPos, body);
    ChecksumConcat(setup.alg, setup.alg.initial, header, body);
    Regroup(file, header, body, if setup.haveChecksum then Store4(setup.alg.Of(s.checksum, body)) else []);
  }

  lemma Regroup(file: seq<Byte>, header: seq<Byte>, body: seq<Byte>, tail: seq<Byte>)
    ensures file + header + body + tail == file + (header + body + tail)
  {
  }

  lemma AppendedSize(setup: Setup, file: seq<Byte>, e: Event)
    requires e.WellFormed()
    ensures |Appended(setup, file, e)| == |file| + (|e.Bytes()| + setup.Extra())
  {
  }

  lemma {:induction false} FeedEvents(setup: Setup, file: seq<Byte>, events: seq<Event>)
    requires AllWellFormed(events)
    requires forall k :: 0 <= k < |events| ==> Complete(setup, events[k])
    ensures FeedAll(setup, Idle(setup, file), Stream(events)) == Idle(setup, AllAppended(setup, file, events))
  {
    if events != [] {
      var n := |events| - 1;
      FeedEvents(setup, file, events[..n]);
      FeedConcat(setup, Idle(setup, file), Stream(events[..n]), events[n].Bytes());
      FeedEvent(setup, AllAppended(setup, file, events[..n]), events[n]);
    }
  }

  /******* Events without a body *******/

  function Missing(setup: Setup, events: seq<Event>): nat {
    if events == [] then 0
    else Missing(setup, events[..|events| - 1]) + if Complete(setup, events[|events| - 1]) then 0 else CHECKSUM_LEN
  }

  function AppendedLength(setup: Setup, events: seq<Event>): nat {
    if events == [] then 0
    else AppendedLength(setup, events[..|events| - 1]) + |events[|events| - 1].Bytes()| + setup.Extra()
  }

  lemma {:induction false} AppendedLengthIs(setup: Setup, file: seq<Byte>, events: seq<Event>)
    requires AllWellFormed(events)
    ensures |AllAppended(setup, file, events)| == |file| + AppendedLength(setup, events)
  {
    if events != [] {
      AppendedLengthIs(setup, file, events[..|events| - 1]);
    }
  }

  // Each event without a body lacks its checksum.
  lemma {:induction false} WrittenLength(setup: Setup, file: seq<Byte>, events: seq<Event>)
    requires AllWellFormed(events)
    ensures
      var s := FeedAll(setup, Idle(setup, file), Stream(events));
      && s.header == [] && s.eventLen == 0
      && |s.out| + Missing(setup, events) == |file| + AppendedLength(setup, events)
  {
    if events != [] {
      var n := |events| - 1;
      WrittenLength(setup, file, events[..n]);
      var s := FeedAll(setup, Idle(setup, file), Stream(events[..n]));
      FeedConcat(setup, Idle(setup, file), Stream(events[..n]), events[n].Bytes());
      WrittenEventLength(setup, s, events[n]);
    }
  }

  lemma WrittenEventLength(setup: Setup, s: Writer, e: Event)
    requires e.WellFormed() && s.header == [] && s.eventLen == 0
    ensures
      var t := FeedAll(setup, s, e.Bytes());
      && t.header == [] && t.eventLen == 0
      && |t.out| == |s.out| + |e.Bytes()| + if Complete(setup, e) then setup.Extra() else 0
  {
    FeedConcat(setup, s, e.header, e.body);
    WrittenHeaderLength(setup, s, e);
    if e.body != [] {
      WrittenBodyLength(setup, FeedAll(setup, s, e.header), e.body);
    }
  }

  lemma WrittenHeaderLength(setup: Setup, s: Writer, e: Event)
    requires e.WellFormed() && s.header == [] && s.eventLen == 0
    ensures
      var t := FeedAll(setup, s, e.header);
      t.header == [] && t.eventLen == |e.body| && |t.out| == |s.out| + HEADER_LEN
  {
    FeedHeader(setup, s, e.header);
    assert [] + e.header == e.header;
    SmallWrap(|e.body|);
  }

  lemma WrittenBodyLength(setup: Setup, s: Writer, body: seq<Byte>)
    requires s.header == [] && body != [] && s.eventLen == |body|
    ensures
      var t := FeedAll(setup, s, body);
      t.header == [] && t.eventLen == 0 && |t.out| == |s.out| + |body| + setup.Extra()
  {
    FeedBody(setup, s, body);
  }

  lemma {:induction false} MissingSome(setup: Setup, events: seq<Event>, k: nat)
    requires k < |events| && !Complete(setup, events[k])
    ensures Missing(setup, events) > 0
  {
    if k < |events| - 1 {
      MissingSome(setup, events[..|events| - 1], k);
    }
  }

  /**
   Every event is completed as it should be exactly when, with checksums on, none of them is a
   bare header.
   */
  lemma StreamIsAppended(setup: Setup, file: seq<Byte>, events: seq<Event>)
    requires AllWellFormed(events)
    ensures FeedAll(setup, Idle(setup, file), Stream(events)).out == AllAppended(setup, file, events)
      <==> forall k :: 0 <= k < |events| ==> Complete(setup, events[k])
  {
    if forall k :: 0 <= k < |events| ==> Complete(setup, events[k]) {
      FeedEvents(setup, file, events);
    } else {
      var k :| 0 <= k < |events| && !Complete(setup, events[k]);
      MissingSome(setup, events, k);
      WrittenLength(setup, file, events);
      AppendedLengthIs(setup, file, events);
    }
  }

  // What a reader finds: the length field counts all the bytes, the position field is where
  // the event ends, the rest is as it was, and the checksum covers what was written.
  lemma AppendedEvent(setup: Setup, file: seq<Byte>, e: Event)
    requires e.WellFormed()
    ensures
      var file', written, n := Appended(setup, file, e), Written(setup, file, e), |e.Bytes()|;
      && file' == file + written
      && |written| == n + setup.Extra() == Field(written, EVENT_LEN_OFFSET)
      && Field(written, LOG_POS_OFFSET) == |file'| % WORD
      && written[..EVENT_LEN_OFFSET] == e.Bytes()[..EVENT_LEN_OFFSET]
      && written[LOG_POS_OFFSET + 4..n] == e.Bytes()[LOG_POS_OFFSET + 4..]
      && (setup.haveChecksum ==> Load4(written[n..]) == setup.alg.Of(setup.alg.initial, written[..n]))
  {
    var header, written := HeaderAt(setup, file, e), Written(setup, file, e);
    UpdatedFields(setup, e.header, Wrap(|file| + (|e.Bytes()| + setup.Extra())));
    WrapIsModulo(|file| + (|e.Bytes()| + setup.Extra()));
    assert Appended(setup, file, e) == file + written;
    WrittenParts(header, e.body, written);
    assert e.Bytes()[LOG_POS_OFFSET + 4..] == e.header[LOG_POS_OFFSET + 4..] + e.body;
  }

  lemma WrittenParts(header: seq<Byte>, body: seq<Byte>, written: seq<Byte>)
    requires |header| == HEADER_LEN && header + body <= written
    ensures Field(written, EVENT_LEN_OFFSET) == Field(header, EVENT_LEN_OFFSET)
    ensures Field(written, LOG_POS_OFFSET) == Field(header, LOG_POS_OFFSET)
    ensures written[..EVENT_LEN_OFFSET] == header[..EVENT_LEN_OFFSET]
    ensures written[LOG_POS_OFFSET + 4..|header + body|] == header[LOG_POS_OFFSET + 4..] + body
    ensures written[..|header + body|] == header + body
  {
    var all := header + body;
    assert written[..|all|] == all;
    assert written[EVENT_LEN_OFFSET..EVENT_LEN_OFFSET + 4] == header[EVENT_LEN_OFFSET..EVENT_LEN_OFFSET + 4];
    assert written[LOG_POS_OFFSET..LOG_POS_OFFSET + 4] == header[LOG_POS_OFFSET..LOG_POS_OFFSET + 4];
    assert all[LOG_POS_OFFSET + 4..] == header[LOG_POS_OFFSET + 4..] + body;
  }

  // Two fields of the header change and nothing else.
  lemma UpdatedFields(setup: Setup, header: seq<Byte>, endLogPos: Word)
    requires |header| == HEADER_LEN && Field(header, EVENT_LEN_OFFSET) + CHECKSUM_LEN < WORD
    ensures
      var header' := Updated(setup, header, endLogPos);
      && Field(header', EVENT_LEN_OFFSET) == Field(header, EVENT_LEN_OFFSET) + setup.Extra()
      && Field(header', LOG_POS_OFFSET) == endLogPos
      && header'[..EVENT_LEN_OFFSET] == header[..EVENT_LEN_OFFSET]
      && header'[LOG_POS_OFFSET + 4..] == header[LOG_POS_OFFSET + 4..]
  {
    var len := Field(header, EVENT_LEN_OFFSET);
    OtherField(if setup.haveChecksum then WithField(header, EVENT_LEN_OFFSET, Wrap(len + CHECKSUM_LEN)) else header,
               LOG_POS_OFFSET, endLogPos, EVENT_LEN_OFFSET);
  }

  /******* The fields of a header *******/

  datatype HeaderFields = HeaderFields(
    timestamp: Word, kind: Byte, serverId: Word, eventLen: Word, logPos: Word, flags: (Byte, Byte))
  {
    // One behind the other.
    function Bytes(): (header: seq<Byte>)
      ensures |header| == HEADER_LEN
    {
      Store4(timestamp) + [kind] + Store4(serverId) + Store4(eventLen) + Store4(logPos) + [flags.0, flags.1]
    }
  }

  lemma FieldsAre(h: HeaderFields)
    ensures Field(h.Bytes(), EVENT_LEN_OFFSET) == h.eventLen && Field(h.Bytes(), LOG_POS_OFFSET) == h.logPos
  {
    assert h.Bytes()[EVENT_LEN_OFFSET..EVENT_LEN_OFFSET + 4] == Store4(h.eventLen);
    assert h.Bytes()[LOG_POS_OFFSET..LOG_POS_OFFSET + 4] == Store4(h.logPos);
  }

  lemma LenFieldSet(h: HeaderFields, len: Word)
    ensures WithField(h.Bytes(), EVENT_LEN_OFFSET, len) == h.(eventLen := len).Bytes()
  {
  }

  lemma PosFieldSet(h: HeaderFields, pos: Word)
    ensures WithField(h.Bytes(), LOG_POS_OFFSET, pos) == h.(logPos := pos).Bytes()
  {
  }

  /**
   Completing a header sets its length and its position, and no other field.
   */
  lemma HeaderCompleted(setup: Setup, h: HeaderFields, endLogPos: Word)
    requires h.eventLen + CHECKSUM_LEN < WORD
    ensures Updated(setup, h.Bytes(), endLogPos) ==
      h.(eventLen := h.eventLen + setup.Extra(), logPos := endLogPos).Bytes()
  {
    FieldsAre(h);
    var h' := h.(eventLen := h.eventLen + setup.Extra());
    if setup.haveChecksum {
      LenFieldSet(h, h.eventLen + CHECKSUM_LEN);
    }
    PosFieldSet(h', endLogPos);
  }

  /******* Where the copying loop stops making progress *******/

  // After d bytes of the buffer a header is awaited, and the rest of the buffer has a 32-bit length
  // of zero: a turn of the loop takes nothing from here.
  predicate StuckAt(setup: Setup, s: Writer, buffer: seq<Byte>, d: nat)
    requires |s.header| < HEADER_LEN && d <= |buffer|
  {
    Wrap(|buffer| - d) == 0 && FeedAll(setup, s, buffer[..d]).eventLen == 0
  }

  lemma StuckLater(setup: Setup, s: Writer, buffer: seq<Byte>, done: nat, d: nat)
    requires |s.header| < HEADER_LEN && done + d <= |buffer|
    ensures StuckAt(setup, s, buffer, done + d) ==
      StuckAt(setup, FeedAll(setup, s, buffer[..done]), buffer[done..], d)
  {
    FeedNext(setup, s, buffer, done, d);
  }

  lemma NotStuckUpTo(setup: Setup, s: Writer, buffer: seq<Byte>, done: nat, n: nat)
    requires |s.header| < HEADER_LEN && done + n <= |buffer|
    requires forall d: nat :: d < n ==> !StuckAt(setup, FeedAll(setup, s, buffer[..done]), buffer[done..], d)
    ensures forall d: nat :: done <= d < done + n ==> !StuckAt(setup, s, buffer, d)
    ensures StuckAt(setup, s, buffer, done) == StuckAt(setup, FeedAll(setup, s, buffer[..done]), buffer[done..], 0)
  {
    StuckLater(setup, s, buffer, done, 0);
    forall d: nat | done <= d < done + n
      ensures !StuckAt(setup, s, buffer, d)
    {
      StuckLater(setup, s, buffer, done, d - done);
    }
  }

  lemma {:induction false} WrapLess(x: nat, d: nat)
    requires d <= Wrap(x)
    ensures d <= x && Wrap(x - d) == Wrap(x) - d
    decreases x
  {
    if x >= WORD {
      WrapLess(x - WORD, d);
    }
  }

  lemma NotAWord(len: nat, n: nat, d: nat)
    requires d < n <= Wrap(len)
    ensures d <= len && Wrap(len - d) != 0
  {
    WrapLess(len, d);
  }

  // Inside a part that a turn takes, be it of a header or of a body, the loop cannot get stuck.
  lemma NotInsideHeader(setup: Setup, s: Writer, rest: seq<Byte>, n: nat, d: nat)
    requires |s.header| < HEADER_LEN && d < n <= |rest| && n <= Wrap(|rest|)
    ensures !StuckAt(setup, s, rest, d)
  {
    NotAWord(|rest|, n, d);
  }

  lemma NotInsideBody(setup: Setup, s: Writer, rest: seq<Byte>, n: nat, d: nat)
    requires |s.header| < HEADER_LEN && d < n <= s.eventLen && n <= |rest|
    ensures !StuckAt(setup, s, rest, d)
  {
    FeedBodyPart(setup, s, rest[..d]);
  }

  // So it is at the start of any buffer of 4 GiB if a header is awaited then.
  lemma WholeWordIsStuck(setup: Setup, file: seq<Byte>)
    ensures StuckAt(setup, Idle(setup, file), seq(WORD, k => 0), 0)
  {
    var buffer: seq<Byte> := seq(WORD, k => 0);
    assert buffer[..0] == [];
    assert Wrap(WORD) == Wrap(0) == 0;
  }

  /******* The stream *******/

  class BinlogEventWriter {
    const setup: Setup
    var binlogFile: seq<Byte>
    var checksum: Word
    var endLogPos: Word
    var header: array<Byte>
    var headerLen: nat
    var eventLen: Word

    ghost predicate Valid()
      reads this
    {
      header.Length == HEADER_LEN && headerLen < HEADER_LEN
    }

    ghost function State(): Writer
      reads this, header
      requires Valid()
    {
      Writer(binlogFile, checksum, endLogPos, header[..headerLen], eventLen)
    }

    constructor (setup: Setup, file: seq<Byte>)
      ensures Valid() && fresh(header) && this.setup == setup && State() == Idle(setup, file)
    {
      this.setup := setup;
      binlogFile, checksum, endLogPos := file, setup.alg.initial, Wrap(|file|);
      header := new Byte[HEADER_LEN];
      headerLen, eventLen := 0, 0;
    }

    // Takes any part of the stream; the file is as if it had come byte by byte. What is left of
    // the buffer is cut to 32 bits when a header is awaited. At the first point where nothing
    // remains then, the source's loop turns for ever, and this one stops.
    method Write(buffer: seq<Byte>) returns (done: nat)
      requires Valid()
      modifies this`binlogFile, this`checksum, this`endLogPos, this`headerLen, this`eventLen, header
      ensures done <= |buffer| && Valid() && State() == FeedAll(setup, old(State()), buffer[..done])
      ensures forall d: nat :: d < done ==> !StuckAt(setup, old(State()), buffer, d)
      ensures done < |buffer| ==> StuckAt(setup, old(State()), buffer, done)
      ensures done < |buffer| <==> exists d: nat :: d < |buffer| && StuckAt(setup, old(State()), buffer, d)
      ensures |buffer| < WORD ==> done == |buffer|
    {
      ghost var s := State();
      done := 0;
      assert buffer[..0] == [];
      var stuck := false;
      while done < |buffer| && !stuck
        invariant 0 <= done <= |buffer|
        invariant Valid() && State() == FeedAll(setup, s, buffer[..done])
        invariant forall d: nat :: d < done ==> !StuckAt(setup, s, buffer, d)
        invariant stuck ==> done < |buffer| && StuckAt(setup, s, buffer, done)
        decreases |buffer| - done, !stuck
      {
        var n := WritePart(buffer[done..]);
        FeedNext(setup, s, buffer, done, n);
        NotStuckUpTo(setup, s, buffer, done, n);
        done := done + n;
        stuck := n == 0;
      }
    }

    // As much as belongs to one header, or to one body. It may be nothing; then nothing changes.
    method WritePart(rest: seq<Byte>) returns (n: nat)
      requires Valid() && rest != []
      modifies this`binlogFile, this`checksum, this`endLogPos, this`headerLen, this`eventLen, header
      ensures n <= |rest|
      ensures n == 0 <==> StuckAt(setup, old(State()), rest, 0)
      ensures forall d: nat :: d < n ==> !StuckAt(setup, old(State()), rest, d)
      ensures Valid() && State() == FeedAll(setup, old(State()), rest[..n])
    {
      ghost var s := State();
      assert rest[..0] == [];
      if eventLen == 0 {
        WrapAtMost(|rest|);
        n := if HEADER_LEN - headerLen < Wrap(|rest|) then HEADER_LEN - headerLen else Wrap(|rest|);
        if n > 0 {
          FeedHeader(setup, s, rest[..n]);
          forall d: nat | d < n
            ensures !StuckAt(setup, s, rest, d)
          {
            NotInsideHeader(setup, s, rest, n, d);
          }
          WriteHeaderPart(rest[..n]);
        }
      } else {
        n := if eventLen < |rest| then eventLen else |rest|;
        FeedBody(setup, s, rest[..n]);
        forall d: nat | d < n
          ensures !StuckAt(setup, s, rest, d)
        {
          NotInsideBody(setup, s, rest, n, d);
        }
        WriteBodyPart(rest[..n]);
      }
    }

    method WriteHeaderPart(part: seq<Byte>)
      requires Valid() && eventLen == 0 && headerLen + |part| <= HEADER_LEN
      modifies this`binlogFile, this`checksum, this`endLogPos, this`headerLen, this`eventLen, header
      ensures Valid() && State() == HeaderPart(setup, old(State()), part)
    {
      ghost var s := State();
      BufferHeader(part);
      if headerLen == HEADER_LEN {
        assert header[..] == s.header + part;
        UpdateHeaderInPlace();
      }
    }

    method BufferHeader(part: seq<Byte>)
      requires Valid() && headerLen + |part| <= HEADER_LEN
      modifies this`headerLen, header
      ensures headerLen == old(headerLen) + |part|
      ensures header[..headerLen] == old(header[..headerLen]) + part
      ensures headerLen == HEADER_LEN ==> header[..] == header[..headerLen]
    {
      ghost var was := header[..headerLen];
      forall k | 0 <= k < |part| {
        header[headerLen + k] := part[k];
      }
      assert header[..headerLen + |part|] == was + part;
      headerLen := headerLen + |part|;
    }

    method UpdateHeaderInPlace()
      requires header.Length == HEADER_LEN == headerLen
      modifies this`binlogFile, this`checksum, this`endLogPos, this`headerLen, this`eventLen, header
      ensures
        var len := Field(old(header[..]), EVENT_LEN_OFFSET);
        && Valid() && endLogPos == Wrap(old(endLogPos) + (len + setup.Extra()))
        && State() == HeaderWritten(setup, old(binlogFile), old(checksum),
             Updated(setup, old(header[..]), endLogPos), endLogPos, Wrap(len - HEADER_LEN))
    {
      CompleteHeader();
      FinishHeader();
    }

    method CompleteHeader()
      requires header.Length == HEADER_LEN
      modifies this`endLogPos, this`eventLen, header
      ensures eventLen == Field(old(header[..]), EVENT_LEN_OFFSET)
      ensures endLogPos == Wrap(old(endLogPos) + (eventLen + setup.Extra()))
      ensures header[..] == Updated(setup, old(header[..]), endLogPos)
    {
      ghost var was := header[..];
      eventLen := Field(header[..], EVENT_LEN_OFFSET);
      AdvancePosition();
      assert header[..] == was;
      if setup.haveChecksum {
        PutField(EVENT_LEN_OFFSET, Wrap(eventLen + CHECKSUM_LEN));
      }
      PutField(LOG_POS_OFFSET, endLogPos);
    }

    method AdvancePosition()
      modifies this`endLogPos
      ensures endLogPos == Wrap(old(endLogPos) + (eventLen + setup.Extra()))
    {
      WrapAdd(endLogPos + eventLen, setup.Extra());
      endLogPos := Wrap(endLogPos + eventLen);
      if setup.haveChecksum {
        endLogPos := Wrap(endLogPos + CHECKSUM_LEN);
      }
    }

    // The complete header goes to the file, and the event's body is awaited.
    method FinishHeader()
      requires header.Length == HEADER_LEN == headerLen
      modifies this`binlogFile, this`checksum, this`headerLen, this`eventLen
      ensures Valid() && headerLen == 0 && eventLen == Wrap(old(eventLen) - HEADER_LEN)
      ensures binlogFile == old(binlogFile) + header[..]
      ensures checksum == if setup.haveChecksum then setup.alg.Of(old(checksum), header[..]) else old(checksum)
    {
      if setup.haveChecksum {
        checksum := setup.alg.Of(checksum, header[..]);
      }
      binlogFile := binlogFile + header[..];
      eventLen := Wrap(eventLen - HEADER_LEN);
      headerLen := 0;
    }

    method PutField(offset: nat, w: Word)
      requires offset + 4 <= header.Length
      modifies header
      ensures header[..] == WithField(old(header[..]), offset, w)
    {
      var bytes := Store4(w);
      forall k | 0 <= k < 4 {
        header[offset + k] := bytes[k];
      }
    }

    method WriteBodyPart(part: seq<Byte>)
      requires Valid() && 0 < |part| <= eventLen
      modifies this`binlogFile, this`checksum, this`eventLen
      ensures Valid() && State() == BodyPart(setup, old(State()), part)
    {
      binlogFile := binlogFile + part;
      if setup.haveChecksum {
        checksum := setup.alg.Of(checksum, part);
      }
      eventLen := eventLen - |part|;
      if setup.haveChecksum && eventLen == 0 {
        binlogFile := binlogFile + Store4(checksum);
        checksum := setup.alg.initial;
      }
    }
  }
}
