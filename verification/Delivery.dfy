/**
 * Only whole, intact frames are dispatched, whatever bytes arrive.
 * Source: src/main.cpp, ProcessMessages; src/protocol.cpp, CMessageHeader::IsValid.
 */
module Delivery {
  import opened Bytes
  import opened Framing

  /** The bytes of s at position p are a complete frame of m: start, a valid command, true size, true checksum. */
  ghost predicate FrameWith(w: Wire, s: seq<Byte>, p: nat, m: Message, field: seq<Byte>) {
    && |field| == COMMAND_SIZE && FieldOk(field) && GetCommand(field) == m.command && |m.payload| <= MAX_SIZE
    && p + HEADER_SIZE + |m.payload| <= |s|
    && s[p..p + HEADER_SIZE + |m.payload|] == Header(w, field, |m.payload|, w.hash(m.payload)) + m.payload
  }

  ghost predicate FrameAt(w: Wire, s: seq<Byte>, p: nat, m: Message) {
    exists field: seq<Byte> :: FrameWith(w, s, p, m, field)
  }

  function EndOf(p: nat, m: Message): nat { p + HEADER_SIZE + |m.payload| }

  /** The messages stand in s from position `from` on, in this order and without overlap. */
  ghost predicate Stand(w: Wire, s: seq<Byte>, msgs: seq<Message>, ps: seq<nat>, from: nat) {
    && |ps| == |msgs|
    && (forall i :: 0 <= i < |ps| ==> from <= ps[i] && FrameAt(w, s, ps[i], msgs[i]))
    && (forall i, j :: 0 <= i < j < |ps| ==> EndOf(ps[i], msgs[i]) <= ps[j])
  }

  lemma FourBytes(b: seq<Byte>)
    requires |b| == 4
    ensures LeValue(b) < 0x1_0000_0000 && LeBytes(LeValue(b), 4) == b
  {
    LeValueBound(b);
    LeBytesOfValue(b);
    assert Pow256(4) == 256 * Pow256(3) && Pow256(3) == 256 * Pow256(2) && Pow256(2) == 65536;
  }

  lemma HeaderIs(w: Wire, s: seq<Byte>, sum: nat)
    requires |s| >= HEADER_SIZE && s[..4] == w.magic && LeBytes(sum, 4) == s[20..24]
    ensures s[..HEADER_SIZE] == Header(w, s[4..16], LeValue(s[16..20]), sum)
  {
    hide LeBytes, LeValue;
    FourBytes(s[16..20]);
    assert s[..HEADER_SIZE] == s[..4] + s[4..16] + s[16..20] + s[20..24];
  }

  /** Equal low 32 bits are equal low four bytes. */
  lemma SameSum(v: nat, b: seq<Byte>)
    requires |b| == 4 && v % 0x1_0000_0000 == LeValue(b)
    ensures LeBytes(v, 4) == b
  {
    hide LeBytes, LeValue;
    LowBytes(v);
    LeBytesOfValue(LeBytes(v, 4));
    LeBytesOfValue(b);
  }

  /** A turn that delivers has a frame of the message in front of it. */
  lemma ParseFrame(w: Wire, s: seq<Byte>)
    requires |s| >= HEADER_SIZE && s[..4] == w.magic
    ensures var v := Parse(w, s);
            && (v.Deliver? ==> FrameAt(w, s, 0, v.msg) && v.rest == s[EndOf(0, v.msg)..])
            && (v.Skip? ==> v.rest == s[HEADER_SIZE..])
  {
    hide LeBytes, LeValue, GetCommand, FieldOk, Header;
    var v := Parse(w, s);
    if v.Deliver? {
      var size, body := LeValue(s[16..20]), s[HEADER_SIZE..];
      var payload, n := body[..size], HEADER_SIZE + size;
      SameSum(w.hash(payload), s[20..24]);
      HeaderIs(w, s, w.hash(payload));
      assert s[0..n] == s[..HEADER_SIZE] + payload;
      assert FrameWith(w, s, 0, v.msg, s[4..16]);
    }
  }

  lemma FrameMoves(w: Wire, s: seq<Byte>, d: nat, p: nat, m: Message)
    requires d <= |s| && FrameAt(w, s[d..], p, m)
    ensures FrameAt(w, s, d + p, m)
  {
    hide Header, FieldOk, GetCommand;
    var field: seq<Byte> :| FrameWith(w, s[d..], p, m, field);
    var n := HEADER_SIZE + |m.payload|;
    assert s[d..][p..p + n] == s[d + p..d + p + n];
    assert FrameWith(w, s, d + p, m, field);
  }

  lemma StepFrame(w: Wire, s: seq<Byte>) returns (p: nat)
    ensures var v := Step(w, s);
            && (v.Deliver? ==> FrameAt(w, s, p, v.msg) && EndOf(p, v.msg) <= |s| && v.rest == s[EndOf(p, v.msg)..])
            && (v.Skip? ==> p + HEADER_SIZE <= |s| && v.rest == s[p + HEADER_SIZE..])
  {
    hide Parse, FrameAt;
    p := Find(w, s, 0);
    if |s| - p >= HEADER_SIZE {
      var t := s[p..];
      assert t[..4] == s[p..p + 4];
      ParseFrame(w, t);
      var v := Parse(w, t);
      if v.Deliver? {
        FrameMoves(w, s, p, 0, v.msg);
        FrameFits(w, t, 0, v.msg);
        assert t[EndOf(0, v.msg)..] == s[EndOf(p, v.msg)..];
      } else if v.Skip? {
        assert t[HEADER_SIZE..] == s[p + HEADER_SIZE..];
      }
    }
  }

  lemma FrameFits(w: Wire, s: seq<Byte>, p: nat, m: Message)
    requires FrameAt(w, s, p, m)
    ensures EndOf(p, m) <= |s|
  {
  }

  /** Everything drained from the end of a byte string stands in it. */
  lemma {:induction false} DrainStands(w: Wire, s: seq<Byte>, d: nat) returns (ps: seq<nat>)
    requires d <= |s|
    ensures Stand(w, s, Drain(w, s[d..]).handled, ps, d)
    decreases |s| - d
  {
    hide Step, FrameAt;
    var v := Step(w, s[d..]);
    var p := StepFrame(w, s[d..]);
    match v
    case Wait(_) =>
      ps := [];
    case Skip(rest) =>
      var e := d + p + HEADER_SIZE;
      assert rest == s[e..];
      ps := DrainStands(w, s, e);
    case Deliver(m, rest) =>
      var e := EndOf(d + p, m);
      assert rest == s[e..];
      FrameMoves(w, s, d, p, m);
      var qs := DrainStands(w, s, e);
      ps := [d + p] + qs;
      StandsFirst(w, s, m, Drain(w, rest).handled, d, p, qs);
  }

  lemma StandsFirst(w: Wire, s: seq<Byte>, m: Message, msgs: seq<Message>, d: nat, p: nat, qs: seq<nat>)
    requires FrameAt(w, s, d + p, m) && Stand(w, s, msgs, qs, EndOf(d + p, m))
    ensures Stand(w, s, [m] + msgs, [d + p] + qs, d)
  {
    hide FrameAt;
  }

  lemma StandPrefix(w: Wire, s: seq<Byte>, all: seq<Message>, ps: seq<nat>, first: seq<Message>)
    requires Stand(w, s, all, ps, 0) && first <= all
        ensures |first| <= |ps| && Stand(w, s, first, ps[..|first|], 0)
  {
    hide FrameAt;
    assert forall i :: 0 <= i < |first| ==> first[i] == all[i];
  }

  /**
   * For every byte stream, however it is cut: each message handled is a whole frame of the bytes received,
   * with a valid command, its true size and the checksum of its payload, and the frames stand in the
   * stream in the order of handling and do not overlap.
   */
  lemma OnlyFramesAreHandled(w: Wire, events: seq<Event>) returns (ps: seq<nat>)
    ensures Stand(w, Received(events), Run(w, events).handled, ps, 0)
  {
    hide Run, Drain, Stand;
    FragmentationIsInvisible(w, events);
    var s := Received(events);
    assert s[0..] == s;
    var all := DrainStands(w, s, 0);
    StandPrefix(w, s, Drain(w, s).handled, all, Run(w, events).handled);
    ps := all[..|Run(w, events).handled|];
  }

  /** In particular a message of which no intact frame arrived is never handled. */
  lemma NothingElseIsHandled(w: Wire, events: seq<Event>, m: Message)
    requires forall p: nat :: p <= |Received(events)| ==> !FrameAt(w, Received(events), p, m)
    ensures m !in Run(w, events).handled
  {
    hide Run, FrameAt;
    var ps := OnlyFramesAreHandled(w, events);
    var msgs := Run(w, events).handled;
    if m in msgs {
      var i :| 0 <= i < |msgs| && msgs[i] == m;
      FrameFits(w, Received(events), ps[i], m);
    }
  }
}
