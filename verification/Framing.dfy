/**
 * Message framing on a byte stream: the printer that patches size and
 * checksum into a header, and the parser that meets the bytes in arbitrary
 * pieces.  Source: src/net.h, CNode::BeginMessage, EndMessage, AbortMessage;
 * src/protocol.cpp, CMessageHeader; src/main.cpp, ProcessMessages.
 * The network's start bytes and the checksum hash are parameters.
 */
module Framing {
  import opened Bytes

  type Magic = s: seq<Byte> | |s| == 4 witness [0, 0, 0, 0]

  datatype Wire = Wire(magic: Magic, hash: seq<Byte> -> nat)

  const COMMAND_SIZE := 12
  const HEADER_SIZE := 24
  const MAX_SIZE := 0x0200_0000

  datatype Message = Message(command: seq<Byte>, payload: seq<Byte>)

  // ----- Headers -----

  /** strncpy into the command field. */
  function Field(command: seq<Byte>): (f: seq<Byte>)
    ensures |f| == COMMAND_SIZE
  {
    if |command| >= COMMAND_SIZE then command[..COMMAND_SIZE] else command + Zeros(COMMAND_SIZE - |command|)
  }

  /** strlen from position k. */
  function FirstZero(f: seq<Byte>, k: nat): (n: nat)
    requires k <= |f|
    ensures k <= n <= |f| && (n < |f| ==> f[n] == 0) && forall i :: k <= i < n ==> f[i] != 0
    decreases |f| - k
  {
    if k == |f| || f[k] == 0 then k else FirstZero(f, k + 1)
  }

  function GetCommand(f: seq<Byte>): seq<Byte>
    requires |f| == COMMAND_SIZE
  {
    if f[COMMAND_SIZE - 1] == 0 then f[..FirstZero(f, 0)] else f
  }

  predicate Printable(b: Byte) { 0x20 <= b <= 0x7E }

  /** Printable characters, then zeros. */
  ghost predicate FieldOk(f: seq<Byte>) {
    && (forall i :: 0 <= i < |f| ==> f[i] == 0 || Printable(f[i]))
    && (forall i, j :: 0 <= i < j < |f| && f[i] == 0 ==> f[j] == 0)
  }

  /** A command that fits its field and is accepted comes back unchanged. */
  lemma CommandRoundTrip(command: seq<Byte>)
    requires |command| <= COMMAND_SIZE && forall i :: 0 <= i < |command| ==> Printable(command[i])
    ensures FieldOk(Field(command)) && GetCommand(Field(command)) == command
  {
    var f := Field(command);
    assert f[..|command|] == command;
    assert forall i :: 0 <= i < |command| ==> f[i] != 0;
    var n := FirstZero(f, 0);
    assert |command| < COMMAND_SIZE ==> f[|command|] == 0;
    assert n < |f| ==> f[n] == 0;
    assert n == |command|;
  }

  /** CMessageHeader as its 24 bytes. */
  function Header(w: Wire, field: seq<Byte>, size: nat, checksum: nat): (h: seq<Byte>)
    requires |field| == COMMAND_SIZE
    ensures |h| == HEADER_SIZE
  {
    w.magic + field + LeBytes(size, 4) + LeBytes(checksum, 4)
  }

  function Frame(w: Wire, m: Message): (f: seq<Byte>) {
    Header(w, Field(m.command), |m.payload|, w.hash(m.payload)) + m.payload
  }

  /** What the command loop of IsValid accepts. */
  method IsValidCommand(f: seq<Byte>) returns (ok: bool)
    ensures ok <==> FieldOk(f)
  {
    var p1 := 0;
    while p1 < |f|
      invariant 0 <= p1
      invariant forall i :: 0 <= i < p1 && i < |f| ==> f[i] == 0 || Printable(f[i])
      invariant p1 <= |f| ==> forall i :: 0 <= i < p1 ==> f[i] != 0
      invariant p1 > |f| ==> FieldOk(f)
    {
      if f[p1] == 0 {
        ghost var z := p1;
        while p1 < |f|
          invariant z <= p1 <= |f| && forall i :: z <= i < p1 ==> f[i] == 0
        {
          if f[p1] != 0 { return false; }
          p1 := p1 + 1;
        }
      } else if f[p1] < 0x20 || f[p1] > 0x7E {
        return false;
      }
      p1 := p1 + 1;
    }
    return true;
  }

  // ----- Finding a message start -----

  predicate StartsAt(w: Wire, s: seq<Byte>, k: int) { 0 <= k && k + 4 <= |s| && s[k..k + 4] == w.magic }

  /** std::search: the first start at or after k, or the end. */
  function Find(w: Wire, s: seq<Byte>, k: nat): (p: nat)
    requires k <= |s|
    ensures k <= p <= |s| && (p < |s| ==> StartsAt(w, s, p))
    ensures forall i :: k <= i < p ==> !StartsAt(w, s, i)
    decreases |s| - k
  {
    if k == |s| || StartsAt(w, s, k) then k else Find(w, s, k + 1)
  }

  lemma FindIs(w: Wire, s: seq<Byte>, p: nat)
    requires StartsAt(w, s, p) && forall i :: 0 <= i < p ==> !StartsAt(w, s, i)
    ensures Find(w, s, 0) == p
  {
    var q := Find(w, s, 0);
    assert q < |s| ==> StartsAt(w, s, q);
  }

  // ----- One turn of the loop -----

  datatype Verdict = Wait(rest: seq<Byte>) | Skip(rest: seq<Byte>) | Deliver(msg: Message, rest: seq<Byte>)

  ghost predicate HeaderOk(s: seq<Byte>)
    requires |s| >= HEADER_SIZE
  {
    FieldOk(s[4..16]) && LeValue(s[16..20]) <= MAX_SIZE
  }

  /** A buffer of at least a header that begins with a message start. */
  ghost function Parse(w: Wire, s: seq<Byte>): (v: Verdict)
    requires |s| >= HEADER_SIZE
    ensures !v.Wait? ==> |v.rest| <= |s| - HEADER_SIZE
  {
    var size, body := LeValue(s[16..20]), s[HEADER_SIZE..];
    if !HeaderOk(s) then Skip(body)
    else if size > |body| then Wait(s)
    else if w.hash(body[..size]) % 0x1_0000_0000 != LeValue(s[20..24]) then Skip(body)
    else Deliver(Message(GetCommand(s[4..16]), body[..size]), body[size..])
  }

  function Tail(s: seq<Byte>): seq<Byte> { if |s| > HEADER_SIZE then s[|s| - HEADER_SIZE..] else s }

  ghost function Step(w: Wire, s: seq<Byte>): (v: Verdict)
    ensures !v.Wait? ==> |v.rest| < |s|
  {
    var p := Find(w, s, 0);
    if |s| - p < HEADER_SIZE then Wait(Tail(s)) else Parse(w, s[p..])
  }

  // ----- The whole loop -----

  datatype Out = Out(handled: seq<Message>, rest: seq<Byte>)

  function Prepend(m: Message, o: Out): Out { Out([m] + o.handled, o.rest) }

  /** At most room turns, room being the turn at which the send buffer is found full. */
  ghost function Process(w: Wire, s: seq<Byte>, room: nat): Out
    decreases |s|
  {
    if room == 0 then Out([], s)
    else
      match Step(w, s)
      case Wait(r) => Out([], r)
      case Skip(r) => Process(w, r, room - 1)
      case Deliver(m, r) => Prepend(m, Process(w, r, room - 1))
  }

  /** With room for everything. */
  ghost function Drain(w: Wire, s: seq<Byte>): Out
    decreases |s|
  {
    match Step(w, s)
    case Wait(r) => Out([], r)
    case Skip(r) => Drain(w, r)
    case Deliver(m, r) => Prepend(m, Drain(w, r))
  }

  // ----- More bytes do not change what is already decided -----

  lemma StartsExtend(w: Wire, s: seq<Byte>, c: seq<Byte>, k: int)
    requires k + 4 <= |s|
    ensures StartsAt(w, s + c, k) == StartsAt(w, s, k)
  {
    if 0 <= k { assert (s + c)[k..k + 4] == s[k..k + 4]; }
  }

  lemma StartsShift(w: Wire, s: seq<Byte>, d: nat, k: int)
    requires d <= |s| && 0 <= k
    ensures StartsAt(w, s[d..], k) == StartsAt(w, s, d + k)
  {
    if d + k + 4 <= |s| { assert s[d..][k..k + 4] == s[d + k..d + k + 4]; }
  }

  /** A start with room for its header stays the first one. */
  lemma FindExtend(w: Wire, s: seq<Byte>, c: seq<Byte>)
    requires Find(w, s, 0) + 4 <= |s|
    ensures Find(w, s + c, 0) == Find(w, s, 0)
  {
    var p := Find(w, s, 0);
    forall i | 0 <= i < p ensures !StartsAt(w, s + c, i) { StartsExtend(w, s, c, i); }
    StartsExtend(w, s, c, p);
    FindIs(w, s + c, p);
  }

  /** Dropping bytes that begin no message moves the first start by as many. */
  lemma FindShift(w: Wire, s: seq<Byte>, d: nat)
    requires d <= |s| && forall i :: 0 <= i < d ==> !StartsAt(w, s, i)
    ensures Find(w, s[d..], 0) == Find(w, s, 0) - d
  {
    hide StartsAt;
    var p, q := Find(w, s[d..], 0), Find(w, s, 0);
    assert q >= d;
    if p < |s| - d { StartsShift(w, s, d, p); }
    if q < |s| { StartsShift(w, s, d, q - d); }
    assert q <= d + p && p <= q - d;
  }

  lemma ParseExtend(w: Wire, s: seq<Byte>, c: seq<Byte>)
    requires |s| >= HEADER_SIZE
    ensures var v := Parse(w, s);
            && (v.Skip? ==> Parse(w, s + c) == Skip(v.rest + c))
            && (v.Deliver? ==> Parse(w, s + c) == Deliver(v.msg, v.rest + c))
            && (v.Wait? ==> v.rest == s)
  {
    var t, size := s + c, LeValue(s[16..20]);
    assert t[4..16] == s[4..16] && t[16..20] == s[16..20] && t[20..24] == s[20..24];
    assert t[HEADER_SIZE..] == s[HEADER_SIZE..] + c;
    hide FieldOk, LeValue, GetCommand;
    var body := s[HEADER_SIZE..];
    if size <= |body| {
      assert (body + c)[..size] == body[..size] && (body + c)[size..] == body[size..] + c;
    }
  }

  /** A decided turn stays decided; after a wait, the kept bytes do as well as all of them. */
  lemma StepExtend(w: Wire, s: seq<Byte>, c: seq<Byte>)
    ensures var v := Step(w, s);
            && (v.Skip? ==> Step(w, s + c) == Skip(v.rest + c))
            && (v.Deliver? ==> Step(w, s + c) == Deliver(v.msg, v.rest + c))
            && (v.Wait? ==> Step(w, s + c) == Step(w, v.rest + c))
  {
    hide StartsAt, Parse, Find;
    var p := Find(w, s, 0);
    if |s| - p >= HEADER_SIZE {
      FindExtend(w, s, c);
      ParseExtend(w, s[p..], c);
      assert (s + c)[p..] == s[p..] + c;
      if Step(w, s).Wait? {
        assert forall i :: 0 <= i < p ==> !StartsAt(w, s, i);
        forall i | 0 <= i < p ensures !StartsAt(w, s + c, i) { StartsExtend(w, s, c, i); }
        SameSuffix(w, s + c, p);
      }
    } else if |s| > HEADER_SIZE {
      var d := |s| - HEADER_SIZE;
      forall i | 0 <= i < d ensures !StartsAt(w, s + c, i) { StartsExtend(w, s, c, i); }
      assert (s + c)[d..] == Tail(s) + c;
      SameSuffix(w, s + c, d);
    }
  }

  /** Bytes that begin no message do not matter, as long as a header's worth of bytes is kept. */
  lemma SameSuffix(w: Wire, s: seq<Byte>, d: nat)
    requires d + HEADER_SIZE <= |s| && forall i :: 0 <= i < d ==> !StartsAt(w, s, i)
    ensures Step(w, s[d..]) == Step(w, s)
  {
    hide StartsAt, Parse, Find;
    FindShift(w, s, d);
    var p := Find(w, s, 0);
    if |s| - p < HEADER_SIZE {
      assert Tail(s[d..]) == Tail(s);
    } else {
      assert s[d..][p - d..] == s[p..];
    }
  }

  /** Draining in two parts is draining at once, for every byte stream. */
  lemma {:induction false} DrainSplit(w: Wire, s: seq<Byte>, c: seq<Byte>)
    ensures var a := Drain(w, s); var b := Drain(w, a.rest + c);
            Drain(w, s + c) == Out(a.handled + b.handled, b.rest)
    decreases |s|
  {
    hide Step;
    StepExtend(w, s, c);
    match Step(w, s)
    case Wait(r) =>
    case Skip(r) => DrainSplit(w, r, c);
    case Deliver(m, r) => DrainSplit(w, r, c);
  }

  /** What a call with little room leaves undone is exactly what is still to do. */
  lemma {:induction false} ProcessThenDrain(w: Wire, s: seq<Byte>, room: nat)
    ensures var o := Process(w, s, room);
            Drain(w, s) == Out(o.handled + Drain(w, o.rest).handled, Drain(w, o.rest).rest)
    decreases |s|
  {
    hide Step;
    if room > 0 {
      match Step(w, s)
      case Wait(r) =>
        StepExtend(w, s, []);
        assert s + [] == s && r + [] == r;
        assert Step(w, r) == Wait(r);
      case Skip(r) => ProcessThenDrain(w, r, room - 1);
      case Deliver(m, r) => ProcessThenDrain(w, r, room - 1);
    }
  }

  /** A call with room for one turn per byte, and one more, drains the buffer. */
  lemma {:induction false} RoomEnough(w: Wire, s: seq<Byte>, room: nat)
    requires room > |s|
    ensures Process(w, s, room) == Drain(w, s)
    decreases |s|
  {
    hide Step;
    match Step(w, s)
    case Wait(r) =>
    case Skip(r) => RoomEnough(w, r, room - 1);
    case Deliver(m, r) => RoomEnough(w, r, room - 1);
  }

  // ----- Runs -----

  /** Bytes that arrive, then a call that finds the send buffer full at turn room. */
  datatype Event = Event(chunk: seq<Byte>, room: nat)

  ghost function Run(w: Wire, events: seq<Event>): Out {
    if events == [] then Out([], [])
    else
      var n := |events| - 1;
      var before := Run(w, events[..n]);
      var now := Process(w, before.rest + events[n].chunk, events[n].room);
      Out(before.handled + now.handled, now.rest)
  }

  function Received(events: seq<Event>): seq<Byte> {
    if events == [] then [] else Received(events[..|events| - 1]) + events[|events| - 1].chunk
  }

  /**
   * Whatever the bytes, their fragmentation and the room in each call: what has
   * been handled plus what the buffer still holds is what the bytes received
   * would give in one piece.
   */
  lemma {:induction false} FragmentationIsInvisible(w: Wire, events: seq<Event>)
    ensures var o := Run(w, events); var left := Drain(w, o.rest);
            Drain(w, Received(events)) == Out(o.handled + left.handled, left.rest)
    decreases |events|
  {
    hide Drain, Process;
    if events == [] {
      assert Run(w, events) == Out([], []) && Received(events) == [];
      assert Out([] + Drain(w, []).handled, Drain(w, []).rest) == Drain(w, []);
    } else {
      var n := |events| - 1;
      FragmentationIsInvisible(w, events[..n]);
      var before, c := Run(w, events[..n]), events[n].chunk;
      var all := Received(events[..n]);
      DrainSplit(w, all, c);
      DrainSplit(w, before.rest, c);
      ProcessThenDrain(w, before.rest + c, events[n].room);
      HandledChain(w, before, all, c, Process(w, before.rest + c, events[n].room));
    }
  }

  lemma HandledChain(w: Wire, before: Out, all: seq<Byte>, c: seq<Byte>, now: Out)
    requires var left := Drain(w, before.rest); Drain(w, all) == Out(before.handled + left.handled, left.rest)
    requires var a := Drain(w, all); var b := Drain(w, a.rest + c);
             Drain(w, all + c) == Out(a.handled + b.handled, b.rest)
    requires var a := Drain(w, before.rest); var b := Drain(w, a.rest + c);
             Drain(w, before.rest + c) == Out(a.handled + b.handled, b.rest)
    requires var left := Drain(w, now.rest); Drain(w, before.rest + c) == Out(now.handled + left.handled, left.rest)
    ensures var left := Drain(w, now.rest);
            Drain(w, all + c) == Out((before.handled + now.handled) + left.handled, left.rest)
  {
    hide Drain;
    var left, a, b := Drain(w, now.rest), Drain(w, before.rest), Drain(w, Drain(w, before.rest).rest + c);
    assert (before.handled + a.handled) + b.handled == before.handled + (a.handled + b.handled);
    assert before.handled + (now.handled + left.handled) == (before.handled + now.handled) + left.handled;
  }

  // ----- Framed messages -----

  predicate Sendable(m: Message) {
    && |m.command| <= COMMAND_SIZE && (forall i :: 0 <= i < |m.command| ==> Printable(m.command[i]))
    && |m.payload| <= MAX_SIZE
  }

  function Stream(w: Wire, msgs: seq<Message>): seq<Byte> {
    if msgs == [] then [] else Frame(w, msgs[0]) + Stream(w, msgs[1..])
  }

  /** Four bytes keep the low 32 bits. */
  lemma LowBytes(v: nat)
    ensures LeValue(LeBytes(v, 4)) == v % 0x1_0000_0000
  {
    hide LeValue, LeBytes;
    var v1 := v / 256;
    var v2 := v1 / 256;
    LowByte(v, 4);
    LowByte(v1, 3);
    LowByte(v2, 2);
    LowByte(v2 / 256, 1);
    LowTwo(v2);
    LowThree(v1);
    LowFour(v);
  }

  lemma LowTwo(v: nat)
    ensures v % 0x1_0000 == v % 256 + 256 * (v / 256 % 256)
  {
    var a, r := v / 256, v % 256;
    assert v == 0x1_0000 * (a / 256) + (256 * (a % 256) + r);
  }

  lemma LowThree(v: nat)
    ensures v % 0x100_0000 == v % 256 + 256 * (v / 256 % 0x1_0000)
  {
    var a, r := v / 256, v % 256;
    assert v == 0x100_0000 * (a / 0x1_0000) + (256 * (a % 0x1_0000) + r);
  }

  lemma LowFour(v: nat)
    ensures v % 0x1_0000_0000 == v % 256 + 256 * (v / 256 % 0x100_0000)
  {
    var a, r := v / 256, v % 256;
    assert v == 0x1_0000_0000 * (a / 0x100_0000) + (256 * (a % 0x100_0000) + r);
  }

  lemma LowByte(v: nat, n: nat)
    requires n > 0
    ensures LeValue(LeBytes(v, n)) == v % 256 + 256 * LeValue(LeBytes(v / 256, n - 1))
    ensures LeValue(LeBytes(v, 0)) == 0
    ensures n == 1 ==> LeValue(LeBytes(v / 256, 0)) == 0
  {
    assert LeBytes(v, n)[1..] == LeBytes(v / 256, n - 1);
  }

  lemma Slices(a: seq<Byte>, b: seq<Byte>, c: seq<Byte>, d: seq<Byte>, e: seq<Byte>)
    requires |a| == 4 && |b| == 12 && |c| == 4 && |d| == 4
    ensures var s := a + b + c + d + e; s[..4] == a && s[4..16] == b && s[16..20] == c && s[20..24] == d && s[24..] == e
  {
  }

  lemma FrameParts(w: Wire, m: Message, rest: seq<Byte>)
    ensures var s := Frame(w, m) + rest;
            && |s| >= HEADER_SIZE && s[..4] == w.magic && s[4..16] == Field(m.command)
            && s[16..20] == LeBytes(|m.payload|, 4) && s[20..24] == LeBytes(w.hash(m.payload), 4)
            && s[HEADER_SIZE..] == m.payload + rest
  {
    hide Field, LeBytes;
    var f, size, sum := Field(m.command), LeBytes(|m.payload|, 4), LeBytes(w.hash(m.payload), 4);
    assert Frame(w, m) + rest == w.magic + f + size + sum + (m.payload + rest);
    Slices(w.magic, f, size, sum, m.payload + rest);
  }

  /** A whole frame at the front of the buffer is delivered as sent. */
  lemma FrameIsDelivered(w: Wire, m: Message, rest: seq<Byte>)
    requires Sendable(m)
    ensures Step(w, Frame(w, m) + rest) == Deliver(m, rest)
  {
    hide Frame, Find, StartsAt, LeBytes, LeValue, Field, GetCommand, FieldOk, Step;
    var s := Frame(w, m) + rest;
    FrameParts(w, m, rest);
    StartsNow(w, s);
    FindIs(w, s, 0);
    assert s[0..] == s;
    StepParses(w, s);
    CommandRoundTrip(m.command);
    LowBytes(|m.payload|);
    LowBytes(w.hash(m.payload));
    var size, body := |m.payload|, s[HEADER_SIZE..];
    assert body[..size] == m.payload && body[size..] == rest;
  }

  lemma StartsNow(w: Wire, s: seq<Byte>)
    requires |s| >= 4 && s[..4] == w.magic
    ensures StartsAt(w, s, 0)
  {
    assert s[0..4] == s[..4];
  }

  /** Parsing undoes printing. */
  lemma {:induction false} StreamIsDelivered(w: Wire, msgs: seq<Message>)
    requires forall i :: 0 <= i < |msgs| ==> Sendable(msgs[i])
    ensures Drain(w, Stream(w, msgs)) == Out(msgs, [])
    decreases |msgs|
  {
    hide Step, Frame;
    if msgs == [] {
      NothingYet(w);
    } else {
      FrameIsDelivered(w, msgs[0], Stream(w, msgs[1..]));
      StreamIsDelivered(w, msgs[1..]);
      assert msgs == [msgs[0]] + msgs[1..];
    }
  }

  lemma NothingYet(w: Wire)
    ensures Step(w, []) == Wait([])
  {
  }

  /**
   * For framed messages received in any pieces: what is handled is always a
   * prefix of what was sent, and everything once all bytes are in and the last
   * call has room.
   */
  lemma DeliveredInOrder(w: Wire, msgs: seq<Message>, events: seq<Event>)
    requires forall i :: 0 <= i < |msgs| ==> Sendable(msgs[i])
    requires Received(events) <= Stream(w, msgs)
    ensures Run(w, events).handled <= msgs
    ensures Received(events) == Stream(w, msgs) && events != [] && events[|events| - 1].room > |Stream(w, msgs)| ==>
              Run(w, events) == Out(msgs, [])
  {
    hide Drain, Stream, Run, Received;
    StreamIsDelivered(w, msgs);
    FragmentationIsInvisible(w, events);
    var got, all := Received(events), Stream(w, msgs);
    assert all == got + all[|got|..];
    DrainSplit(w, got, all[|got|..]);
    if got == all && events != [] && events[|events| - 1].room > |all| { LastCallDrains(w, events); }
  }

  /** After a call with room, nothing is left to handle. */
  lemma LastCallDrains(w: Wire, events: seq<Event>)
    requires events != [] && events[|events| - 1].room > |Received(events)|
    ensures var o := Run(w, events); Drain(w, o.rest) == Out([], o.rest)
  {
    hide Step;
    var n := |events| - 1;
    var s := Run(w, events[..n]).rest + events[n].chunk;
    BufferBound(w, events[..n]);
    RoomEnough(w, s, events[n].room);
    DrainTwice(w, s);
  }

  lemma {:induction false} BufferBound(w: Wire, events: seq<Event>)
    ensures |Run(w, events).rest| <= |Received(events)|
    decreases |events|
  {
    if events != [] {
      var n := |events| - 1;
      BufferBound(w, events[..n]);
      ProcessShrinks(w, Run(w, events[..n]).rest + events[n].chunk, events[n].room);
    }
  }

  lemma {:induction false} ProcessShrinks(w: Wire, s: seq<Byte>, room: nat)
    ensures |Process(w, s, room).rest| <= |s|
    decreases |s|
  {
    hide Step;
    StepShrinks(w, s);
    if room > 0 && !Step(w, s).Wait? { ProcessShrinks(w, Step(w, s).rest, room - 1); }
  }

  lemma StepShrinks(w: Wire, s: seq<Byte>)
    ensures |Step(w, s).rest| <= |s|
  {
    hide Find, Parse;
    if |s| - Find(w, s, 0) >= HEADER_SIZE { ParseShrinks(w, s[Find(w, s, 0)..]); }
  }

  lemma ParseShrinks(w: Wire, s: seq<Byte>)
    requires |s| >= HEADER_SIZE
    ensures |Parse(w, s).rest| <= |s|
  {
    hide LeValue, FieldOk, GetCommand;
  }

  lemma DrainTwice(w: Wire, s: seq<Byte>)
    ensures var o := Drain(w, s); Drain(w, o.rest) == Out([], o.rest)
  {
    DrainSplit(w, s, []);
    var o := Drain(w, s);
    assert s + [] == s && o.rest + [] == o.rest;
    hide Drain;
    var b := Drain(w, o.rest);
    assert o.handled == o.handled + b.handled;
    assert |b.handled| == 0;
  }

  // ----- The code -----

  class Node {
    const w: Wire
    var vSend: seq<Byte>
    var nHeaderStart: int
    var nMessageStart: int
    var vRecv: seq<Byte>
    var handled: seq<Message>

    /** No message is open, or one is, with its header in place. */
    ghost predicate Valid()
      reads this
    {
      if nHeaderStart < 0 then nHeaderStart == -1 && nMessageStart == -1
      else nMessageStart == nHeaderStart + HEADER_SIZE <= |vSend| && vSend[nHeaderStart..nHeaderStart + 4] == w.magic
    }

    ghost predicate Open()
      reads this
    {
      nHeaderStart >= 0
    }

    /** Bytes of closed messages. */
    ghost function Sent(): seq<Byte>
      requires Valid()
      reads this
    {
      if Open() then vSend[..nHeaderStart] else vSend
    }

    /** The command field and the payload so far of the open message. */
    ghost function OpenField(): seq<Byte>
      requires Valid() && Open()
      reads this
    {
      vSend[nHeaderStart + 4..nHeaderStart + 16]
    }

    ghost function Payload(): seq<Byte>
      requires Valid() && Open()
      reads this
    {
      vSend[nMessageStart..]
    }

    constructor (w: Wire)
      ensures Valid() && !Open() && Sent() == [] && vRecv == [] && handled == [] && this.w == w
    {
      this.w, vSend, nHeaderStart, nMessageStart, vRecv, handled := w, [], -1, -1, [], [];
    }

    method AbortMessage()
      requires Valid()
      modifies this`vSend, this`nHeaderStart, this`nMessageStart
      ensures Valid() && !Open() && Sent() == old(Sent())
    {
      if nHeaderStart < 0 { return; }
      vSend := vSend[..nHeaderStart];
      nHeaderStart, nMessageStart := -1, -1;
    }

    /** Opens a message; one that was left open is dropped. */
    method BeginMessage(command: seq<Byte>)
      requires Valid()
      modifies this`vSend, this`nHeaderStart, this`nMessageStart
      ensures Valid() && Open() && Sent() == old(Sent()) && OpenField() == Field(command) && Payload() == []
    {
      hide Field, LeBytes;
      if nHeaderStart != -1 { AbortMessage(); }
      nHeaderStart := |vSend|;
      ghost var base := vSend;
      var header := Header(w, Field(command), 0, 0);
      vSend := vSend + header;
      nMessageStart := |vSend|;
      assert vSend == base + (header + []);
      Slices(w.magic, Field(command), LeBytes(0, 4), LeBytes(0, 4), []);
      assert header + [] == w.magic + Field(command) + LeBytes(0, 4) + LeBytes(0, 4) + [];
      Offsets(base, header);
    }

    method Write(bytes: seq<Byte>)
      requires Valid() && Open()
      modifies this`vSend
      ensures Valid() && Open() && Sent() == old(Sent()) && OpenField() == old(OpenField())
      ensures Payload() == old(Payload()) + bytes
    {
      ghost var before := vSend;
      vSend := vSend + bytes;
      assert vSend[..nHeaderStart] == before[..nHeaderStart];
      assert vSend[nHeaderStart..nHeaderStart + 4] == before[nHeaderStart..nHeaderStart + 4];
      assert vSend[nHeaderStart + 4..nHeaderStart + 16] == before[nHeaderStart + 4..nHeaderStart + 16];
    }

    /** Patches size and checksum into the header; a dropped message leaves no trace. */
    method EndMessage(drop: bool)
      requires Valid()
      modifies this`vSend, this`nHeaderStart, this`nMessageStart
      ensures Valid() && !Open()
      ensures drop || !old(Open()) ==> Sent() == old(Sent())
      ensures !drop && old(Open()) ==>
                Sent() == old(Sent()) + Header(w, old(OpenField()), |old(Payload())|, w.hash(old(Payload())))
                          + old(Payload())
    {
      hide LeBytes;
      if drop { AbortMessage(); return; }
      if nHeaderStart < 0 { return; }
      var size := |vSend| - nMessageStart;
      var k := nHeaderStart;
      ghost var before := vSend;
      var nSize := LeBytes(size, 4);
      vSend := vSend[..k + 16] + nSize + vSend[k + 20..];
      SizePatched(before, k, nSize);
      var checksum := LeBytes(w.hash(vSend[nMessageStart..]), 4);
      vSend := vSend[..k + 20] + checksum + vSend[k + 24..];
      SumPatched(before, k, nSize, checksum);
      nHeaderStart, nMessageStart := -1, -1;
    }

    /** A whole message: what goes out is its frame. */
    method PushMessage(m: Message)
      requires Valid()
      modifies this`vSend, this`nHeaderStart, this`nMessageStart
      ensures Valid() && !Open() && Sent() == old(Sent()) + Frame(w, m)
    {
      hide Header, Field;
      BeginMessage(m.command);
      Write(m.payload);
      assert Payload() == m.payload;
      EndMessage(false);
    }

    /** The receive loop. */
    method ProcessMessages(room: nat)
      modifies this`vRecv, this`handled
      ensures Out(handled, vRecv) ==
              Out(old(handled) + Process(w, old(vRecv), room).handled, Process(w, old(vRecv), room).rest)
    {
      hide Find, StartsAt, FieldOk, LeValue, Step, Process, GetCommand;
      ghost var goal := Process(w, vRecv, room);
      if vRecv == [] { EmptyBuffer(w, room); return; }
      var turn: nat := 0;
      while true
        invariant turn <= room
        invariant old(handled) + goal.handled == handled + Process(w, vRecv, room - turn).handled
        invariant goal.rest == Process(w, vRecv, room - turn).rest
        decreases |vRecv|
      {
        ProcessTurn(w, vRecv, room - turn);
        if turn == room { break; }
        turn := turn + 1;
        var pstart := Find(w, vRecv, 0);
        if |vRecv| - pstart < HEADER_SIZE {
          StepWaits(w, vRecv);
          if |vRecv| > HEADER_SIZE { vRecv := vRecv[|vRecv| - HEADER_SIZE..]; }
          break;
        }
        StepParses(w, vRecv);
        vRecv := vRecv[pstart..];
        var header := vRecv[..HEADER_SIZE];
        HeaderSlices(vRecv);
        vRecv := vRecv[HEADER_SIZE..];
        var commandOk := IsValidCommand(header[4..16]);
        var nMessageSize := LeValue(header[16..20]);
        if !commandOk || nMessageSize > MAX_SIZE { continue; }
        if nMessageSize > |vRecv| {
          vRecv := header + vRecv;
          break;
        }
        if w.hash(vRecv[..nMessageSize]) % 0x1_0000_0000 != LeValue(header[20..24]) { continue; }
        handled := handled + [Message(GetCommand(header[4..16]), vRecv[..nMessageSize])];
        vRecv := vRecv[nMessageSize..];
      }
    }
  }

  lemma SizePatched(s: seq<Byte>, k: nat, size: seq<Byte>)
    requires k + HEADER_SIZE <= |s| && |size| == 4
    ensures var t := s[..k + 16] + size + s[k + 20..];
            |t| == |s| && t[..k + 20] == s[..k + 16] + size && t[k + 24..] == s[k + 24..]
  {
  }

  lemma SumPatched(s: seq<Byte>, k: nat, size: seq<Byte>, sum: seq<Byte>)
    requires k + HEADER_SIZE <= |s| && |size| == 4 && |sum| == 4
    ensures var t := s[..k + 16] + size + s[k + 20..];
            t[..k + 20] + sum + t[k + 24..] == s[..k] + (s[k..k + 4] + s[k + 4..k + 16] + size + sum) + s[k + 24..]
  {
    SizePatched(s, k, size);
    assert s[..k + 16] == s[..k] + s[k..k + 4] + s[k + 4..k + 16];
  }

  lemma Offsets(base: seq<Byte>, header: seq<Byte>)
    requires |header| == HEADER_SIZE
    ensures var s, k := base + header, |base|;
            s[..k] == base && s[k..k + 4] == header[..4] && s[k + 4..k + 16] == header[4..16] && s[k + 24..] == []
  {
  }

  lemma HeaderSlices(s: seq<Byte>)
    requires |s| >= HEADER_SIZE
    ensures var h := s[..HEADER_SIZE]; h[4..16] == s[4..16] && h[16..20] == s[16..20] && h[20..24] == s[20..24]
    ensures s[..HEADER_SIZE] + s[HEADER_SIZE..] == s
  {
  }

  lemma EmptyBuffer(w: Wire, room: nat)
    ensures Process(w, [], room) == Out([], [])
  {
  }

  lemma ProcessTurn(w: Wire, s: seq<Byte>, room: nat)
    ensures room == 0 ==> Process(w, s, room) == Out([], s)
    ensures room > 0 ==>
              Process(w, s, room) ==
              match Step(w, s)
              case Wait(r) => Out([], r)
              case Skip(r) => Process(w, r, room - 1)
              case Deliver(m, r) => Prepend(m, Process(w, r, room - 1))
  {
  }

  lemma StepWaits(w: Wire, s: seq<Byte>)
    requires |s| - Find(w, s, 0) < HEADER_SIZE
    ensures Step(w, s) == Wait(Tail(s))
  {
  }

  lemma StepParses(w: Wire, s: seq<Byte>)
    requires |s| - Find(w, s, 0) >= HEADER_SIZE
    ensures Step(w, s) == Parse(w, s[Find(w, s, 0)..])
  {
  }
}
