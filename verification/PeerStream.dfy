/** The writer of one peer's persistent stream: what the bytes on each stream are, whatever fails. */
module PeerStream {
  import opened Options
  import opened Bytes
  import opened Wire
  import opened Framing

  /** What one call of the network's Write does: it takes this many bytes at most, and may fail. */
  datatype Write = Write(taken: nat, fails: bool)

  /** What a request meets, in the order in which the writer looks at it. */
  datatype Conditions = Conditions(
    expired: bool,
    opens: bool,
    expiredLater: bool,
    hasDeadline: bool,
    deadlineSet: bool,
    writes: seq<Write>,
    stopped: bool)

  /** What a prewarming request meets. */
  datatype Prewarming = Prewarming(expired: bool, opens: bool, stopped: bool, negotiates: bool)

  datatype Event = Send(payload: Bytes, met: Conditions) | Prewarm(how: Prewarming) | Stop

  // ----- what a stream carries -----

  /** What was sent on one stream: the acknowledged payloads, and the one whose send failed in writing, if any. */
  datatype Line = Line(acked: seq<Bytes>, tail: Option<Bytes>)

  /** The frames of the acknowledged payloads; after them the start of the failed one's frame, maybe all of it. */
  ghost predicate Carries(wire: Bytes, line: Line) {
    var frames := Frames(line.acked);
    match line.tail
    case None => wire == frames
    case Some(p) => p != [] && Fits(p) && frames <= wire && wire[|frames|..] <= Frame(p)
  }

  /** A payload asked to be sent, and whether its send was acknowledged. */
  datatype Attempt = Attempt(payload: Bytes, ok: bool)

  function AllOk(payloads: seq<Bytes>): seq<Attempt> {
    seq(|payloads|, i requires 0 <= i < |payloads| => Attempt(payloads[i], true))
  }

  function OnLine(line: Line): seq<Attempt> {
    AllOk(line.acked) + if line.tail.Some? then [Attempt(line.tail.value, false)] else []
  }

  /** All that reached a stream, stream by stream. */
  function Order(lines: seq<Line>): seq<Attempt> {
    if lines == [] then [] else Order(lines[..|lines| - 1]) + OnLine(lines[|lines| - 1])
  }

  /** The sends that were asked for, in order. */
  function Asked(events: seq<Event>, done: seq<bool>): seq<Attempt>
    requires |done| == |events|
  {
    if events == [] then []
    else
      var n := |events| - 1;
      Asked(events[..n], done[..n]) + if events[n].Send? then [Attempt(events[n].payload, done[n])] else []
  }

  /** Some is all, in order, but for sends that failed. */
  ghost predicate Omits(some: seq<Attempt>, all: seq<Attempt>)
    decreases |all|
  {
    if all == [] then some == []
    else
      var n := |all| - 1;
      || (some != [] && some[|some| - 1] == all[n] && Omits(some[..|some| - 1], all[..n]))
      || (!all[n].ok && Omits(some, all[..n]))
  }

  function Payloads(list: seq<Attempt>): seq<Bytes> {
    seq(|list|, i requires 0 <= i < |list| => list[i].payload)
  }

  /** The payloads of the sends that were acknowledged. */
  function Acknowledged(list: seq<Attempt>): seq<Bytes> {
    if list == [] then []
    else Acknowledged(list[..|list| - 1]) + if list[|list| - 1].ok then [list[|list| - 1].payload] else []
  }

  lemma OneMoreFrame(payloads: seq<Bytes>, payload: Bytes)
    ensures Frames(payloads + [payload]) == Frames(payloads) + Frame(payload)
  {
    assert (payloads + [payload])[..|payloads|] == payloads;
  }

  // ----- the order of sends -----

  lemma OrderNew(lines: seq<Line>)
    ensures Order(lines + [Line([], None)]) == Order(lines)
  {
    assert (lines + [Line([], None)])[..|lines|] == lines;
  }

  /** A send on the last stream comes after all others. */
  lemma OrderLast(lines: seq<Line>, payload: Bytes)
    requires lines != [] && lines[|lines| - 1].tail.None?
    ensures var n := |lines| - 1;
            && Order(lines[n := Line(lines[n].acked + [payload], None)]) == Order(lines) + [Attempt(payload, true)]
            && Order(lines[n := Line(lines[n].acked, Some(payload))]) == Order(lines) + [Attempt(payload, false)]
  {
    var n := |lines| - 1;
    var more, failed := Line(lines[n].acked + [payload], None), Line(lines[n].acked, Some(payload));
    assert lines[n := more][..n] == lines[..n] == lines[n := failed][..n];
    assert OnLine(more) == OnLine(lines[n]) + [Attempt(payload, true)];
    assert OnLine(failed) == OnLine(lines[n]) + [Attempt(payload, false)];
  }

  /** One more send reached a stream, after all others; or it failed and did not. */
  ghost predicate Reaches(before: seq<Attempt>, after: seq<Attempt>, payload: Bytes, ok: bool) {
    after == before + [Attempt(payload, ok)] || (!ok && after == before)
  }

  lemma RequestReaches(before: seq<Line>, base: seq<Line>, after: seq<Line>, payload: Bytes, ok: bool)
    requires base == before || base == before + [Line([], None)]
    requires base != [] && base[|base| - 1].tail.None?
    requires ok ==> after == base[|base| - 1 := Line(base[|base| - 1].acked + [payload], None)]
    requires !ok ==>
      || after == before || after == base
      || after == base[|base| - 1 := Line(base[|base| - 1].acked, Some(payload))]
    ensures Reaches(Order(before), Order(after), payload, ok)
  {
    OrderNew(before);
    OrderLast(base, payload);
  }

  /** What one event adds to the streams, against what it asked for. */
  ghost predicate Follows(before: seq<Attempt>, after: seq<Attempt>, event: Event, ok: bool) {
    if event.Send? then Reaches(before, after, event.payload, ok) else after == before
  }

  lemma NothingFollows(before: seq<Attempt>, event: Event)
    ensures Follows(before, before, event, false)
  {
  }

  lemma OneMoreEvent(some: seq<Attempt>, events: seq<Event>, done: seq<bool>, first: seq<Attempt>, after: seq<Attempt>)
    returns (more: seq<Attempt>)
    requires events != [] && |done| == |events|
    requires var n := |events| - 1;
             Omits(some, Asked(events[..n], done[..n])) && Follows(first + some, after, events[n], done[n])
    ensures after == first + more && Omits(more, Asked(events, done))
  {
    var n := |events| - 1;
    var asked, e := Asked(events[..n], done[..n]), events[n];
    more := some;
    if e.Send? {
      var x := Attempt(e.payload, done[n]);
      OmitsOne(some, asked, x);
      if after == first + some + [x] {
        more := some + [x];
      }
    }
    assert asked + [] == asked;
  }

  lemma OmitsOne(some: seq<Attempt>, all: seq<Attempt>, x: Attempt)
    requires Omits(some, all)
    ensures Omits(some + [x], all + [x]) && (!x.ok ==> Omits(some, all + [x]))
  {
    assert (all + [x])[..|all|] == all && (some + [x])[..|some|] == some;
  }

  /** What was acknowledged is never left out. */
  lemma {:induction false} OmitsKeepsAcknowledged(some: seq<Attempt>, all: seq<Attempt>)
    requires Omits(some, all)
    ensures Acknowledged(some) == Acknowledged(all)
    decreases |all|
  {
    if all != [] {
      var n := |all| - 1;
      if some != [] && some[|some| - 1] == all[n] && Omits(some[..|some| - 1], all[..n]) {
        OmitsKeepsAcknowledged(some[..|some| - 1], all[..n]);
      } else {
        OmitsKeepsAcknowledged(some, all[..n]);
      }
    }
  }

  lemma {:induction false} OmitsOn(a: seq<Attempt>, b: seq<Attempt>, x: seq<Attempt>, y: seq<Attempt>)
    requires Omits(a, b) && Omits(x, y)
    ensures Omits(a + x, b + y)
    decreases |y|
  {
    if y == [] {
      assert a + x == a && b + y == b;
    } else {
      var n := |y| - 1;
      assert b + y == (b + y[..n]) + [y[n]];
      if x != [] && x[|x| - 1] == y[n] && Omits(x[..|x| - 1], y[..n]) {
        OmitsOn(a, b, x[..|x| - 1], y[..n]);
        assert a + x == (a + x[..|x| - 1]) + [y[n]];
        OmitsOne(a + x[..|x| - 1], b + y[..n], y[n]);
      } else {
        OmitsOn(a, b, x, y[..n]);
        OmitsOne(a + x, b + y[..n], y[n]);
      }
    }
  }

  lemma {:induction false} OmitsNothing(all: seq<Attempt>)
    ensures Omits(all, all)
  {
    if all != [] { OmitsNothing(all[..|all| - 1]); }
  }

  lemma {:induction false} OmitsTwice(a: seq<Attempt>, b: seq<Attempt>, c: seq<Attempt>)
    requires Omits(a, b) && Omits(b, c)
    ensures Omits(a, c)
    decreases |c|
  {
    if c != [] {
      var n := |c| - 1;
      if b != [] && b[|b| - 1] == c[n] && Omits(b[..|b| - 1], c[..n]) {
        if a != [] && a[|a| - 1] == c[n] && Omits(a[..|a| - 1], b[..|b| - 1]) {
          OmitsTwice(a[..|a| - 1], b[..|b| - 1], c[..n]);
        } else {
          OmitsTwice(a, b[..|b| - 1], c[..n]);
        }
      } else {
        OmitsTwice(a, b, c[..n]);
      }
    }
  }

  class PeerStreamWriter {
    /** The bytes on every stream opened so far; the current one, if any, is the last. */
    var wires: seq<Bytes>
    var stream: Option<nat>
    var ready: bool

    /** What was sent on every stream. */
    ghost var lines: seq<Line>

    ghost predicate Valid()
      reads this
    {
      && |lines| == |wires|
      && (forall s :: 0 <= s < |wires| ==> Carries(wires[s], lines[s]))
      && (stream.Some? ==> wires != [] && stream.value == |wires| - 1 && lines[stream.value].tail.None?)
      && (ready <==> stream.Some?)
    }

    constructor ()
      ensures Valid() && wires == [] && stream.None? && lines == []
    {
      wires, stream, ready, lines := [], None, false, [];
    }

    /** Puts the data on the current stream, as far as it goes. */
    method WriteAll(data: Bytes, writes: seq<Write>) returns (ok: bool, left: seq<Write>)
      requires stream.Some? && stream.value < |wires|
      modifies this`wires
      ensures |wires| == |old(wires)|
      ensures forall s :: 0 <= s < |wires| && s != stream.value ==> wires[s] == old(wires)[s]
      ensures ok ==> wires[stream.value] == old(wires)[stream.value] + data
      ensures exists n :: 0 <= n <= |data| && wires[stream.value] == old(wires)[stream.value] + data[..n]
    {
      var done := 0;
      left := writes;
      ghost var before := wires[stream.value];
      assert before == before + data[..0];
      while done < |data|
        invariant 0 <= done <= |data| && |wires| == |old(wires)|
        invariant forall s :: 0 <= s < |wires| && s != stream.value ==> wires[s] == old(wires)[s]
        invariant wires[stream.value] == before + data[..done]
      {
        var w := if left == [] then Write(|data|, false) else left[0];
        left := if left == [] then [] else left[1..];
        var n := if w.taken < |data| - done then w.taken else |data| - done;
        assert data[..done + n] == data[..done] + data[done..done + n];
        wires := wires[stream.value := wires[stream.value] + data[done..done + n]];
        done := done + n;
        if w.fails || n == 0 {
          return false, left;
        }
      }
      assert data[..|data|] == data;
      ok := true;
    }

    method WriteEnvelopeFrame(payload: Bytes, writes: seq<Write>) returns (ok: bool)
      requires Fits(payload) && stream.Some? && stream.value < |wires|
      modifies this`wires
      ensures |wires| == |old(wires)|
      ensures forall s :: 0 <= s < |wires| && s != stream.value ==> wires[s] == old(wires)[s]
      ensures ok ==> payload != [] && wires[stream.value] == old(wires)[stream.value] + Frame(payload)
      ensures payload == [] ==> wires == old(wires)
      ensures exists n :: 0 <= n <= |Frame(payload)| &&
                wires[stream.value] == old(wires)[stream.value] + Frame(payload)[..n]
    {
      ghost var before, v := wires[stream.value], Varint(|payload|);
      assert before == before + Frame(payload)[..0];
      if |payload| == 0 {
        return false;
      }
      ShortPrefix(payload);
      var prefix := new Byte[MAX_VARINT_LEN](_ => 0);
      var size := PutUvarint(prefix, |payload|);
      var left;
      ok, left := WriteAll(prefix[..size], writes);
      ghost var n: nat :| n <= |v| && wires[stream.value] == before + v[..n];
      assert Frame(payload)[..n] == v[..n];
      if !ok {
        return;
      }
      assert Frame(payload)[..|v|] == v;
      ok, left := WriteAll(payload, left);
      ghost var m: nat :| m <= |payload| && wires[stream.value] == (before + v) + payload[..m];
      assert Frame(payload)[..|v| + m] == v + payload[..m];
      Regroup(before, v, payload[..m]);
      Regroup(before, v, payload);
    }

    method ResetStream()
      requires Valid()
      modifies this`stream, this`ready
      ensures Valid() && stream.None?
    {
      stream, ready := None, false;
    }

    method OpenStream()
      requires Valid() && stream.None?
      modifies this
      ensures Valid() && stream == Some(|wires| - 1)
      ensures wires == old(wires) + [[]] && lines == old(lines) + [Line([], None)]
    {
      wires, lines := wires + [[]], lines + [Line([], None)];
      stream, ready := Some(|wires| - 1), true;
    }

    /** The streams as a send finds them: with a new one if there was none to use. */
    ghost function Base(): seq<Line>
      reads this
    {
      if stream.Some? then lines else lines + [Line([], None)]
    }

    /** One send. It is acknowledged only if its whole frame is on the stream, right after those before it; one that
        failed leaves nothing, or the start of its frame as the last thing on its stream. */
    method WriteRequest(payload: Bytes, met: Conditions) returns (done: bool)
      requires Valid() && Fits(payload)
      modifies this
      ensures Valid() && (!done && !met.expired ==> stream.None?)
      ensures met.expired ==> !done && stream == old(stream) && wires == old(wires) && lines == old(lines)
      ensures var base := old(Base());
              var n := |base| - 1;
              && (done ==> stream == Some(n) && lines == base[n := Line(base[n].acked + [payload], None)])
              && (!done ==>
                    || lines == old(lines) || lines == base
                    || lines == base[n := Line(base[n].acked, Some(payload))])
      ensures forall s :: 0 <= s < |old(wires)| && old(stream) != Some(s) ==> wires[s] == old(wires)[s]
    {
      if met.expired {
        return false;
      }
      if stream.None? {
        if !met.opens {
          return false;
        }
        OpenStream();
      }
      if met.expiredLater || !met.hasDeadline || !met.deadlineSet {
        ResetStream();
        return false;
      }
      done := WriteOn(payload, met);
    }

    /** One event of the loop; after a stop every request fails. */
    method Take(event: Event, stopped: bool) returns (ok: bool)
      requires Valid() && (event.Send? ==> Fits(event.payload)) && (stopped ==> stream.None?)
      modifies this
      ensures Valid() && (stopped || event.Stop? ==> stream.None?)
      ensures |old(wires)| <= |wires| && (stream.Some? ==> stream == old(stream) || stream.value >= |old(wires)|)
      ensures forall s :: 0 <= s < |old(wires)| && old(stream) != Some(s) ==> wires[s] == old(wires)[s]
      ensures Follows(old(Order(lines)), Order(lines), event, ok)
    {
      hide Order, Carries, Reaches;
      ok := false;
      if stopped {
        NothingFollows(Order(lines), event);
        return;
      }
      match event {
        case Send(payload, met) =>
          ghost var before, base := lines, Base();
          ok := WriteRequest(payload, met);
          RequestReaches(before, base, lines, payload, ok);
        case Prewarm(how) =>
          OrderNew(lines);
          ok := OpenPrewarmedStream(how);
        case Stop =>
          ResetStream();
      }
    }

    method WriteOn(payload: Bytes, met: Conditions) returns (done: bool)
      requires Valid() && Fits(payload) && stream.Some?
      modifies this
      ensures Valid() && |wires| == |old(wires)| && (!done ==> stream.None?) && (done ==> stream == old(stream))
      ensures var before, n := old(lines), |old(lines)| - 1;
              && (done ==> lines == before[n := Line(before[n].acked + [payload], None)])
              && (!done ==> lines == before || lines == before[n := Line(before[n].acked, Some(payload))])
      ensures forall s :: 0 <= s < |wires| && old(stream) != Some(s) ==> wires[s] == old(wires)[s]
    {
      hide Frame, Frames;
      var s := stream.value;
      ghost var sent := lines[s].acked;
      done := WriteEnvelopeFrame(payload, met.writes);
      ghost var n: nat :| n <= |Frame(payload)| && wires[s] == Frames(sent) + Frame(payload)[..n];
      if !done || met.stopped {
        if payload != [] {
          lines := lines[s := Line(sent, Some(payload))];
          assert wires[s][|Frames(sent)|..] == Frame(payload)[..n];
        }
        stream, ready := None, false;
        return false;
      }
      OneMoreFrame(sent, payload);
      lines := lines[s := Line(sent + [payload], None)];
    }

    /** Opens the stream ahead of the first send, unless it is open; at most one, which stays empty. */
    method OpenPrewarmedStream(how: Prewarming) returns (err: bool)
      requires Valid()
      modifies this
      ensures Valid()
      ensures err <==> how.expired || (old(stream).None? && (!how.opens || how.stopped || !how.negotiates))
      ensures stream == if err || old(stream).Some? then old(stream) else Some(|old(wires)|)
      ensures if how.expired || old(stream).Some? || !how.opens then wires == old(wires) && lines == old(lines)
              else wires == old(wires) + [[]] && lines == old(lines) + [Line([], None)]
    {
      if how.expired {
        return true;
      }
      if stream.Some? {
        return false;
      }
      if !how.opens {
        return true;
      }
      OpenStream();
      if how.stopped || !how.negotiates {
        ResetStream();
        return true;
      }
      err := false;
    }

    /** The writer's loop over a finite stretch of its requests; after a stop every request fails. What it adds to the
        streams are the sends that were asked for, in order: all the acknowledged ones, and some that failed. */
    method Run(events: seq<Event>) returns (done: seq<bool>)
      requires Valid() && forall i :: 0 <= i < |events| && events[i].Send? ==> Fits(events[i].payload)
      modifies this
      ensures Valid() && |done| == |events| && |old(wires)| <= |wires|
      ensures forall s :: 0 <= s < |old(wires)| && old(stream) != Some(s) ==> wires[s] == old(wires)[s]
      ensures old(Order(lines)) <= Order(lines)
      ensures Omits(Order(lines)[|old(Order(lines))|..], Asked(events, done))
    {
      hide Order, Asked, Omits, Carries, Follows;
      done := [];
      var stopped := false;
      ghost var first, added := Order(lines), [];
      NothingAsked();
      assert first == first + [];
      for i := 0 to |events|
        invariant Valid() && |done| == i && |old(wires)| <= |wires| && (stopped ==> stream.None?)
        invariant stream.Some? ==> stream == old(stream) || stream.value >= |old(wires)|
        invariant forall s :: 0 <= s < |old(wires)| && old(stream) != Some(s) ==> wires[s] == old(wires)[s]
        invariant Order(lines) == first + added && Omits(added, Asked(events[..i], done))
      {
        ghost var before := done;
        var ok := Take(events[i], stopped);
        stopped := stopped || events[i].Stop?;
        done := done + [ok];
        assert done[..i] == before && events[..i + 1][..i] == events[..i];
        added := OneMoreEvent(added, events[..i + 1], done, first, Order(lines));
      }
      assert events[..|events|] == events;
    }
  }

  lemma NothingAsked()
    ensures Asked([], []) == [] && Omits([], [])
  {
  }

  // ----- what the other side reads -----

  lemma TailReads(part: Bytes, last: Bytes, max: int)
    requires max >= 1 && last != [] && Fits(last) && part <= Frame(last)
    ensures var (got, end) := ReadAll(part, max);
            && got == (if part == Frame(last) && |last| <= max then [last] else [])
            && (end == EndOfStream || end == Truncated || end == TooLarge)
  {
    if part == Frame(last) && |last| <= max {
      assert part == Frame(last) + [];
      ReadsFrame(last, [], max);
      assert ReadFrame([], max) == EndOfStream;
    } else {
      CutFrame(part, last, max);
    }
  }

  /** What a failed send on this stream still lets the peer read: its payload, if its frame went out whole. */
  function Extra(wire: Bytes, line: Line, max: int): seq<Bytes> {
    if line.tail.Some? && wire == Frames(line.acked) + Frame(line.tail.value) && |line.tail.value| <= max
    then [line.tail.value] else []
  }

  /** The peer gets the acknowledged payloads of a stream in order, after them the one of the failed send if its frame
      went out whole, and then the end, a frame cut short, or one that is too large for it. */
  lemma PeerReads(wire: Bytes, line: Line, max: int)
    requires max >= 1 && Carries(wire, line) && forall p :: p in line.acked ==> Sendable(p, max)
    ensures var (got, end) := ReadAll(wire, max);
            && got == line.acked + Extra(wire, line, max)
            && (end == EndOfStream || end == Truncated || end == TooLarge)
            && (line.tail.None? ==> end == EndOfStream)
  {
    hide Frame, ReadAll;
    var frames := Frames(line.acked);
    var part := wire[|frames|..];
    assert wire == frames + part;
    ReadsThrough(line.acked, part, max);
    match line.tail {
      case None => EmptyReads(max);
      case Some(p) => TailReads(part, p, max);
    }
  }

  lemma EmptyReads(max: int)
    requires max >= 1
    ensures ReadAll([], max) == ([], EndOfStream)
  {
    assert ReadFrame([], max) == EndOfStream;
  }

  /** What the peer reads from all streams, one after the other. */
  function ReadStreams(wires: seq<Bytes>, max: int): seq<Bytes> {
    if wires == [] then [] else ReadStreams(wires[..|wires| - 1], max) + ReadAll(wires[|wires| - 1], max).0
  }

  lemma LineOmits(wire: Bytes, line: Line, max: int) returns (got: seq<Attempt>)
    requires max >= 1 && Carries(wire, line) && forall p :: p in line.acked ==> Sendable(p, max)
    ensures Omits(got, OnLine(line)) && Payloads(got) == ReadAll(wire, max).0
  {
    hide ReadAll, Frame, Frames;
    PeerReads(wire, line, max);
    var all := AllOk(line.acked);
    OmitsNothing(all);
    got := all;
    if line.tail.None? {
      assert OnLine(line) == all;
    } else {
      var x := Attempt(line.tail.value, false);
      OmitsOne(all, all, x);
      got := if Extra(wire, line, max) == [] then all else all + [x];
    }
  }

  /** Over all streams the peer reads the payloads that were sent, each where it was sent: all that were acknowledged,
      and of those whose send failed some. */
  lemma {:induction false} PeerReadsInOrder(wires: seq<Bytes>, lines: seq<Line>, max: int) returns (got: seq<Attempt>)
    requires max >= 1 && |wires| == |lines|
    requires forall s :: 0 <= s < |wires| ==> Carries(wires[s], lines[s])
    requires forall s, p :: 0 <= s < |lines| && p in lines[s].acked ==> Sendable(p, max)
    ensures Payloads(got) == ReadStreams(wires, max) && Omits(got, Order(lines))
  {
    hide ReadAll, Carries;
    got := [];
    if wires != [] {
      var n := |wires| - 1;
      var front := PeerReadsInOrder(wires[..n], lines[..n], max);
      var last := LineOmits(wires[n], lines[n], max);
      OmitsOn(front, Order(lines[..n]), last, OnLine(lines[n]));
      got := front + last;
      assert Payloads(got) == Payloads(front) + Payloads(last);
    }
  }

  /** From the requests to the peer: what it reads over all streams of a fresh writer are payloads that were asked to be
      sent, in the order of the requests, with all that were acknowledged among them. */
  lemma PeerGetsWhatWasAsked(wires: seq<Bytes>, lines: seq<Line>, asked: seq<Attempt>, max: int)
    returns (got: seq<Attempt>)
    requires max >= 1 && |wires| == |lines| && Omits(Order(lines), asked)
    requires forall s :: 0 <= s < |wires| ==> Carries(wires[s], lines[s])
    requires forall s, p :: 0 <= s < |lines| && p in lines[s].acked ==> Sendable(p, max)
    ensures Payloads(got) == ReadStreams(wires, max) && Omits(got, asked)
    ensures Acknowledged(got) == Acknowledged(asked)
  {
    hide Carries, ReadStreams, Omits;
    got := PeerReadsInOrder(wires, lines, max);
    OmitsTwice(got, Order(lines), asked);
    OmitsKeepsAcknowledged(got, asked);
  }

  /** The peer of a stream in use, whose last send was acknowledged, has got every payload and nothing else. */
  lemma PeerIsUpToDate(payloads: seq<Bytes>, max: int)
    requires max >= 1 && forall p :: p in payloads ==> Sendable(p, max)
    ensures ReadAll(Frames(payloads), max) == (payloads, EndOfStream)
  {
    ReadsThrough(payloads, [], max);
    assert Frames(payloads) + [] == Frames(payloads) && payloads + [] == payloads;
    assert ReadFrame([], max) == EndOfStream;
  }
}
