/**
 The loop that writes a session's messages to its client. It is suspended whenever it waits for a
 message, writes or flushes; meanwhile others push messages or end the session.
 */
module StreamLoop {
  import opened Prelude
  import opened EventStream
  import opened Shard

  /** What others do to the session: push_to_session, or the DELETE request and stop(), which end it. */
  datatype Act = Enqueue(msg: string) | Shut

  /** What happens during one suspension; `broken` says that a write found the connection gone. */
  datatype Wake = Wake(acts: seq<Act>, broken: bool)

  datatype Feed = Feed(queue: seq<string>, active: bool)

  function Apply(f: Feed, a: Act): Feed {
    match a
    case Enqueue(msg) => if f.active then f.(queue := f.queue + [msg]) else f
    case Shut => Feed(f.queue + [""], false)
  }

  function ApplyAll(f: Feed, acts: seq<Act>): Feed {
    if acts == [] then f else Apply(ApplyAll(f, acts[..|acts| - 1]), acts[|acts| - 1])
  }

  // ---- The loop on values ----

  /** Where the loop is suspended: waiting for a message, writing one, or it has left for good. */
  datatype Phase = Waiting | Writing | Left

  datatype Loop = Loop(feed: Feed, phase: Phase, written: seq<string>)

  /** GET /sse writes its endpoint event first; the other loops start by testing the session. */
  function Start(f: Feed, opening: string): Loop {
    Loop(f, if opening != "" then Writing else if f.active then Waiting else Left, [])
  }

  /** The uninterrupted stretch from one suspension to the next. */
  function Continue(l: Loop): Loop {
    match l.phase
    case Left => l
    case Writing => l.(phase := if l.feed.active then Waiting else Left)
    case Waiting =>
      if l.feed.queue == [] then l
      else
        var msg, f := l.feed.queue[0], l.feed.(queue := l.feed.queue[1..]);
        if msg == "" || !f.active then Loop(f, Left, l.written) else Loop(f, Writing, l.written + [msg])
  }

  function WakeUp(l: Loop, w: Wake): Loop {
    var f := ApplyAll(l.feed, w.acts);
    if l.phase == Writing && w.broken then Loop(f.(active := false), Left, l.written) else Continue(l.(feed := f))
  }

  /** The loop after the first k suspensions. */
  function After(start: Loop, ws: seq<Wake>, k: nat): Loop
    requires k <= |ws|
  {
    if k == 0 then start else WakeUp(After(start, ws, k - 1), ws[k - 1])
  }

  // ---- The loop as it is written ----

  function FeedOf(session: SseSession): Feed
    reads session
  {
    Feed(session.messages, session.active)
  }

  method Others(session: SseSession, acts: seq<Act>)
    modifies session
    ensures FeedOf(session) == ApplyAll(old(FeedOf(session)), acts)
  {
    for i := 0 to |acts|
      invariant FeedOf(session) == ApplyAll(old(FeedOf(session)), acts[..i])
    {
      match acts[i] {
        case Enqueue(msg) =>
          if session.active {
            session.messages := session.messages + [msg];
          }
        case Shut =>
          session.active := false;
          session.messages := session.messages + [""];
      }
      assert acts[..i + 1][..i] == acts[..i];
    }
    assert acts[..|acts|] == acts;
  }

  lemma {:induction false} FramesAppend(msgs: seq<string>, msg: string)
    ensures Frames(msgs + [msg]) == Frames(msgs) + Frame(msg)
  {
    if msgs == [] {
      assert Frames([msg]) == Frame(msg) + "";
    } else {
      FramesAppend(msgs[1..], msg);
      assert (msgs + [msg])[1..] == msgs[1..] + [msg];
    }
  }

  /** The state of the running loop after k suspensions is that of the loop on values. */
  ghost predicate At(l: Loop, session: SseSession, phase: Phase, bytes: string, opening: string)
    reads session
  {
    l.feed == FeedOf(session) && l.phase == phase && bytes == opening + Frames(l.written)
  }

  /** One message is taken and handed to the connection, unless it ends the loop. */
  method TakeOne(session: SseSession, bytes: string, ghost l: Loop, opening: string)
    returns (more: string, go: bool)
    requires session.messages != [] && At(l, session, Waiting, bytes, opening)
    modifies session`messages
    ensures At(Continue(l), session, if go then Writing else Left, more, opening)
  {
    var msg := session.messages[0];
    session.messages := session.messages[1..];
    if msg == "" || !session.active {
      return bytes, false;
    }
    FramesAppend(l.written, msg);
    assert opening + Frames(l.written) + Frame(msg) == opening + (Frames(l.written) + Frame(msg));
    return bytes + ("data: " + msg + "\n\n"), true;
  }

  /** Runs the loop for as long as the schedule of its suspensions goes. */
  method Serve(session: SseSession, opening: string, ws: seq<Wake>) returns (bytes: string, left: bool)
    modifies session
    ensures var l := After(Start(old(FeedOf(session)), opening), ws, |ws|);
      && FeedOf(session) == l.feed && bytes == opening + Frames(l.written) && (left <==> l.phase == Left)
  {
    ghost var start := Start(FeedOf(session), opening);
    var i := 0;
    var phase := if opening != "" then Writing else if session.active then Waiting else Left;
    bytes := opening;
    while i < |ws|
      invariant i <= |ws| && At(After(start, ws, i), session, phase, bytes, opening)
    {
      ghost var l := After(start, ws, i);
      Others(session, ws[i].acts);
      l := l.(feed := FeedOf(session));
      if phase == Writing && ws[i].broken {
        session.active := false;
        phase := Left;
      } else if phase == Writing {
        phase := if session.active then Waiting else Left;
      } else if phase == Waiting && session.messages != [] {
        var go;
        bytes, go := TakeOne(session, bytes, l, opening);
        phase := if go then Writing else Left;
      }
      i := i + 1;
    }
    left := phase == Left;
  }

  // ---- What every schedule keeps ----

  /** What was put into the queue, in order. */
  function Put(f: Feed, acts: seq<Act>): seq<string> {
    if acts == [] then []
    else
      var front, last := acts[..|acts| - 1], acts[|acts| - 1];
      Put(f, front) + match last
                      case Enqueue(msg) => if ApplyAll(f, front).active then [msg] else []
                      case Shut => [""]
  }

  function PutUpTo(start: Loop, ws: seq<Wake>, k: nat): seq<string>
    requires k <= |ws|
  {
    if k == 0 then [] else PutUpTo(start, ws, k - 1) + Put(After(start, ws, k - 1).feed, ws[k - 1].acts)
  }

  lemma {:induction false} PutIsQueued(f: Feed, acts: seq<Act>)
    ensures ApplyAll(f, acts).queue == f.queue + Put(f, acts)
    ensures !f.active ==> !ApplyAll(f, acts).active
    ensures f.active && !ApplyAll(f, acts).active ==> ApplyAll(f, acts).queue != []
    decreases |acts|
  {
    if acts != [] {
      PutIsQueued(f, acts[..|acts| - 1]);
    }
  }

  /** Running, a session is active, and what was put in is what was written and what is queued; having left, it wrote a prefix. */
  ghost predicate InOrder(l: Loop, all: seq<string>) {
    && "" !in l.written
    && (l.phase == Left || all == l.written + l.feed.queue)
    && l.written <= all
  }

  lemma WakeInOrder(l: Loop, w: Wake, all: seq<string>)
    requires InOrder(l, all)
    ensures InOrder(WakeUp(l, w), all + Put(l.feed, w.acts))
  {
    var f, more := ApplyAll(l.feed, w.acts), Put(l.feed, w.acts);
    PutIsQueued(l.feed, w.acts);
    if l.phase != Left {
      assert all + more == l.written + f.queue;
      if f.queue != [] {
        assert l.written + f.queue == (l.written + [f.queue[0]]) + f.queue[1..];
      }
    }
  }

  /** Whatever others do meanwhile, the messages are written in the order in which they were put in, none twice. */
  lemma {:induction false} WritesInOrder(f: Feed, opening: string, ws: seq<Wake>, k: nat)
    requires k <= |ws|
    ensures var start := Start(f, opening);
      InOrder(After(start, ws, k), f.queue + PutUpTo(start, ws, k))
  {
    var start := Start(f, opening);
    if k > 0 {
      WritesInOrder(f, opening, ws, k - 1);
      var before, now := PutUpTo(start, ws, k - 1), Put(After(start, ws, k - 1).feed, ws[k - 1].acts);
      WakeInOrder(After(start, ws, k - 1), ws[k - 1], f.queue + before);
      Associates(f.queue, before, now);
    }
  }

  lemma WakeLeavesIff(l: Loop, w: Wake)
    requires l.phase == Waiting ==> l.feed.active
    ensures var m, f := WakeUp(l, w), ApplyAll(l.feed, w.acts);
      && (m.phase == Waiting ==> m.feed.active)
      && (m.phase == Left <==>
            || l.phase == Left || !f.active || (l.phase == Writing && w.broken)
            || (l.phase == Waiting && f.queue != [] && f.queue[0] == ""))
      && (!f.active ==> m.written == l.written)
      && (l.phase == Writing && w.broken ==> !m.feed.active)
      && (!l.feed.active ==> !m.feed.active)
  {
    PutIsQueued(l.feed, w.acts);
  }

  /**
   The loop leaves exactly at the first wake-up that finds the session ended, the connection broken or
   an empty message. A session that has ended is never written to, and a broken connection ends it, for
   good.
   */
  lemma {:induction false} LeavesExactly(f: Feed, opening: string, ws: seq<Wake>, k: nat)
    requires k < |ws|
    ensures var start := Start(f, opening);
      var l, m := After(start, ws, k), After(start, ws, k + 1);
      var found := ApplyAll(l.feed, ws[k].acts);
      && (m.phase == Left <==>
            || l.phase == Left || !found.active || (l.phase == Writing && ws[k].broken)
            || (l.phase == Waiting && found.queue != [] && found.queue[0] == ""))
      && (!found.active ==> m.written == l.written)
      && (l.phase == Waiting ==> l.feed.active)
      && (l.phase == Writing && ws[k].broken ==> !m.feed.active)
      && (!l.feed.active ==> !m.feed.active)
  {
    var start := Start(f, opening);
    if k > 0 {
      LeavesExactly(f, opening, ws, k - 1);
      WakeLeavesIff(After(start, ws, k - 1), ws[k - 1]);
    }
    WakeLeavesIff(After(start, ws, k), ws[k]);
  }
}
