/** The writer that cuts a byte stream into lines and publishes each as an event: what it
    publishes does not depend on how the stream is cut into writes. */
module CapturingWriter {
  import opened Wrappers
  import opened Bytes
  import opened LogBus

  /** `strings.TrimRight(line, "\r\n")`. */
  function TrimBreaks(s: string): string {
    if s != "" && (s[|s| - 1] == '\r' || s[|s| - 1] == '\n') then TrimBreaks(s[..|s| - 1]) else s
  }

  /** The standard logger's date and time prefix is dropped. */
  function StripDatePrefix(s: string): string {
    if |s| >= 20 && s[4] == '/' && s[7] == '/' && s[10] == ' ' then TrimSpace(s[20..]) else s
  }

  /** The messages of one complete line: none when it is blank. */
  function LineMessages(line: string): seq<string> {
    var s := TrimBreaks(line);
    if s == "" then [] else [StripDatePrefix(s)]
  }

  /** The messages of all complete lines of `s`. */
  function Messages(s: string): seq<string>
    decreases |s|
  {
    var i := IndexByte(s, '\n');
    if i < 0 then [] else LineMessages(s[..i + 1]) + Messages(s[i + 1..])
  }

  /** What is left of `s` once its complete lines are taken. */
  function Tail(s: string): string
    decreases |s|
  {
    var i := IndexByte(s, '\n');
    if i < 0 then s else Tail(s[i + 1..])
  }

  /** `t` is exactly the bytes of `s` after its last line end. */
  ghost predicate IsAfterLastLineEnd(s: string, t: string) {
    exists k :: 0 <= k <= |s| && s[k..] == t && '\n' !in t && (k == 0 || s[k - 1] == '\n')
  }

  lemma {:induction false} AfterLastLineEndStep(s: string, i: nat, t: string)
    requires i < |s| && s[i] == '\n' && IsAfterLastLineEnd(s[i + 1..], t)
    ensures IsAfterLastLineEnd(s, t)
  {
    var rest := s[i + 1..];
    var k :| 0 <= k <= |rest| && rest[k..] == t && (k == 0 || rest[k - 1] == '\n');
    assert s[i + 1 + k..] == t;
    assert k > 0 ==> s[i + k] == rest[k - 1];
  }

  lemma {:induction false} TailIsAfterLastLineEnd(s: string)
    ensures IsAfterLastLineEnd(s, Tail(s))
    decreases |s|
  {
    var i := IndexByte(s, '\n');
    if i < 0 {
      assert s[0..] == s;
    } else {
      TailIsAfterLastLineEnd(s[i + 1..]);
      AfterLastLineEndStep(s, i, Tail(s[i + 1..]));
    }
  }

  /** The events published for the messages; `now` holds the clock's reading at each. */
  function EventsOf(messages: seq<string>, classify: string -> string, source: string, now: seq<int>): seq<Event>
    requires |messages| <= |now|
  {
    if messages == [] then []
    else
      var m := messages[0];
      [Normal(Event(0, classify(m), source, m), now[0])] + EventsOf(messages[1..], classify, source, now[1..])
  }

  // ----- what a line says -----

  lemma {:induction false} TrimsToText(s: string, end: string)
    requires s == "" || (s[|s| - 1] != '\r' && s[|s| - 1] != '\n')
    requires forall i :: 0 <= i < |end| ==> end[i] == '\r' || end[i] == '\n'
    ensures TrimBreaks(s + end) == s
  {
    if end == "" {
      assert s + end == s;
    } else {
      var u := s + end;
      assert u[|u| - 1] == end[|end| - 1] && u[..|u| - 1] == s + end[..|end| - 1];
      TrimsToText(s, end[..|end| - 1]);
    }
  }

  /** A line is published without its line end and without the standard logger's date and time, as in
      "2009/01/23 01:23:23 text"; a line that is only a line end is not published. */
  lemma {:induction false} LineSays(s: string, end: string)
    requires s == "" || (s[|s| - 1] != '\r' && s[|s| - 1] != '\n')
    requires forall i :: 0 <= i < |end| ==> end[i] == '\r' || end[i] == '\n'
    ensures LineMessages(s + end) ==
      if s == "" then []
      else if |s| < 20 || s[4] != '/' || s[7] != '/' || s[10] != ' ' then [s]
      else [TrimSpace(s[20..])]
  {
    TrimsToText(s, end);
  }

  /** The events of the messages, one for each, in order. */
  lemma {:induction false} EventsSay(messages: seq<string>, classify: string -> string, source: string, now: seq<int>)
    requires |messages| <= |now|
    ensures var es := EventsOf(messages, classify, source, now);
      && |es| == |messages|
      && forall k :: 0 <= k < |messages| ==>
           var level := classify(messages[k]);
           es[k] == Event(now[k], if level == "" then "info" else level, source, messages[k])
  {
    if messages != [] {
      EventsSay(messages[1..], classify, source, now[1..]);
    }
  }

  // ----- cutting -----

  lemma {:induction false} FirstLine(s: string, u: string)
    requires '\n' in s
    ensures IndexByte(s + u, '\n') == IndexByte(s, '\n')
  {
    var i := IndexByte(s, '\n');
    forall j | 0 <= j < i
      ensures (s + u)[j] != '\n'
    {
      assert (s + u)[j] == s[j];
    }
    assert (s + u)[i] == '\n';
  }

  lemma {:induction false} Associates<T>(a: seq<T>, b: seq<T>, c: seq<T>)
    ensures (a + b) + c == a + (b + c)
  {
  }

  lemma {:induction false} SplitLine(t: string, u: string)
    requires '\n' in t
    ensures var i := IndexByte(t, '\n');
      && IndexByte(t + u, '\n') == i
      && (t + u)[..i + 1] == t[..i + 1]
      && (t + u)[i + 1..] == t[i + 1..] + u
      && '\n' in t + u
  {
    FirstLine(t, u);
  }

  lemma {:induction false} NoLineLeft(s: string)
    requires '\n' !in s
    ensures Messages(s) == [] && Tail(s) == s
  {
  }

  lemma {:induction false} MessagesStep(s: string)
    requires '\n' in s
    ensures var i := IndexByte(s, '\n'); Messages(s) == LineMessages(s[..i + 1]) + Messages(s[i + 1..])
  {
  }

  lemma {:induction false} TailStep(s: string)
    requires '\n' in s
    ensures Tail(s) == Tail(s[IndexByte(s, '\n') + 1..])
  {
  }

  /** Feeding `t` and then `u` is feeding them at once: what `t` leaves over is completed by
      `u`. */
  lemma {:induction false} MessagesAppend(t: string, u: string)
    ensures Messages(t + u) == Messages(t) + Messages(Tail(t) + u)
    decreases |t|
  {
    hide LineMessages, Messages, Tail;
    if '\n' in t {
      var i := IndexByte(t, '\n');
      var rest := t[i + 1..];
      SplitLine(t, u);
      MessagesStep(t + u);
      MessagesStep(t);
      TailStep(t);
      MessagesAppend(rest, u);
      Associates(LineMessages(t[..i + 1]), Messages(rest), Messages(Tail(t) + u));
    } else {
      NoLineLeft(t);
    }
  }

  lemma {:induction false} TailAppend(t: string, u: string)
    ensures Tail(t + u) == Tail(Tail(t) + u)
    decreases |t|
  {
    hide Tail;
    if '\n' in t {
      SplitLine(t, u);
      TailStep(t);
      TailStep(t + u);
      TailAppend(t[IndexByte(t, '\n') + 1..], u);
    } else {
      NoLineLeft(t);
    }
  }

  function Concat(chunks: seq<string>): string {
    if chunks == [] then "" else Concat(chunks[..|chunks| - 1]) + chunks[|chunks| - 1]
  }

  /** What is published, and what is left in the buffer, after one write per chunk. */
  function Fed(chunks: seq<string>): (seq<string>, string) {
    if chunks == [] then ([], "")
    else
      var (messages, buf) := Fed(chunks[..|chunks| - 1]);
      var s := buf + chunks[|chunks| - 1];
      (messages + Messages(s), Tail(s))
  }

  /** For every way of cutting a byte stream into writes, the messages published are those of
      one whole write, and the buffer holds exactly the bytes after the last line end. */
  lemma {:induction false} ChunkingInvariance(chunks: seq<string>)
    ensures Fed(chunks) == (Messages(Concat(chunks)), Tail(Concat(chunks)))
  {
    if chunks != [] {
      var front, last := chunks[..|chunks| - 1], chunks[|chunks| - 1];
      ChunkingInvariance(front);
      MessagesAppend(Concat(front), last);
      TailAppend(Concat(front), last);
    }
  }

  // ----- the writer -----

  class Writer {
    const bus: Bus
    const source: string
    const classify: string -> string
    var buf: string

    constructor (bus: Bus, source: string, classify: string -> string)
      ensures this.bus == bus && this.source == source && this.classify == classify && buf == ""
    {
      this.bus, this.source, this.classify, this.buf := bus, source, classify, "";
    }

    /** `buf.ReadBytes('\n')`: takes the first complete line out of the buffer; without one,
        what was read is put back. */
    method ReadLine() returns (line: string, ok: bool)
      modifies this
      ensures ok <==> '\n' in old(buf)
      ensures !ok ==> buf == old(buf)
      ensures ok ==> |buf| < |old(buf)|
      ensures ok ==> Messages(old(buf)) == LineMessages(line) + Messages(buf) && Tail(old(buf)) == Tail(buf)
    {
      hide LineMessages, Messages, Tail;
      var i := IndexByte(buf, '\n');
      if i < 0 {
        return buf, false;
      }
      MessagesStep(buf);
      TailStep(buf);
      line, ok := buf[..i + 1], true;
      buf := buf[i + 1..];
    }

    /** Publishing one complete line; `k'` counts the clock readings used so far. */
    method PublishLine(line: string, now: seq<int>, k: nat) returns (k': nat)
      requires bus.Valid() && k + |LineMessages(line)| <= |now|
      modifies bus
      ensures bus.Valid() && k' == k + |LineMessages(line)|
      ensures bus.log == old(bus.log) + EventsOf(LineMessages(line), classify, source, now[k..])
    {
      k' := k;
      var s := TrimBreaks(line);
      if s != "" {
        var clean := StripDatePrefix(s);
        bus.Publish(Event(0, classify(clean), source, clean), now[k]);
        k' := k + 1;
        assert LineMessages(line) == [clean] && [clean][1..] == [] && now[k..][0] == now[k];
      }
    }

    /** What the log will hold once every complete line of the buffer is published. */
    ghost function Drained(now: seq<int>, k: nat): seq<Event>
      requires k + |Messages(buf)| <= |now|
      reads this, bus
    {
      bus.log + EventsOf(Messages(buf), classify, source, now[k..])
    }

    /** One turn of the loop in `Write`. */
    method PublishNext(now: seq<int>, k: nat) returns (more: bool, k': nat)
      requires bus.Valid() && k + |Messages(buf)| <= |now|
      modifies this, bus
      ensures bus.Valid() && k' + |Messages(buf)| == k + |old(Messages(buf))|
      ensures more <==> '\n' in old(buf)
      ensures more ==> |buf| < |old(buf)|
      ensures !more ==> buf == old(buf) && bus.log == old(bus.log) && k' == k
      ensures Drained(now, k') == old(Drained(now, k)) && Tail(buf) == old(Tail(buf))
    {
      hide LineMessages, Messages, Tail, EventsOf;
      var line;
      line, more := ReadLine();
      k' := k;
      if more {
        k' := PublishLine(line, now, k);
        ghost var first, rest := LineMessages(line), Messages(buf);
        EventsAppend(first, rest, classify, source, now[k..]);
        DropDrop(now, k, |first|);
        Associates(old(bus.log), EventsOf(first, classify, source, now[k..]),
          EventsOf(rest, classify, source, now[k'..]));
      }
    }

    /** `Write`; `now` holds the clock's readings during the call. */
    method Write(p: string, now: seq<int>) returns (n: nat)
      requires bus.Valid() && |Messages(buf + p)| <= |now|
      modifies this, bus
      ensures n == |p|
      ensures bus.Valid()
      ensures buf == Tail(old(buf) + p)
      ensures bus.log == old(bus.log) + EventsOf(Messages(old(buf) + p), classify, source, now)
    {
      buf := buf + p;
      assert now[0..] == now;
      var k: nat := 0;
      ghost var all, tail, count := Drained(now, 0), Tail(buf), |Messages(buf)|;
      var more := true;
      while more
        invariant bus.Valid() && k + |Messages(buf)| == count
        invariant Drained(now, k) == all && Tail(buf) == tail
        invariant !more ==> '\n' !in buf
        decreases |buf|, more
      {
        more, k := PublishNext(now, k);
      }
      NoLineLeft(buf);
      n := |p|;
    }
  }

  lemma {:induction false} EventsAppend(a: seq<string>, b: seq<string>, classify: string -> string, source: string,
                                        now: seq<int>)
    requires |a| + |b| <= |now|
    ensures EventsOf(a + b, classify, source, now) ==
      EventsOf(a, classify, source, now) + EventsOf(b, classify, source, now[|a|..])
  {
    if a == [] {
      assert a + b == b && now[0..] == now;
    } else {
      var r := now[1..];
      assert (a + b)[0] == a[0] && (a + b)[1..] == a[1..] + b;
      EventsAppend(a[1..], b, classify, source, r);
      DropDrop(now, 1, |a| - 1);
      var e := Normal(Event(0, classify(a[0]), source, a[0]), now[0]);
      Associates([e], EventsOf(a[1..], classify, source, r), EventsOf(b, classify, source, now[|a|..]));
    }
  }

  lemma {:induction false} DropDrop(s: seq<int>, i: nat, j: nat)
    requires i + j <= |s|
    ensures s[i..][j..] == s[i + j..]
  {
  }
}
