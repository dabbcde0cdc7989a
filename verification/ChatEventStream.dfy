/** The reader's loop of the chat event stream: poll the feed after a cursor, emit what came, wait. */
module ChatEventStream {

  datatype FeedEvent = FeedEvent(sequence: nat, kind: string, payload: string)

  datatype Frame = Event(event: FeedEvent) | Heartbeat

  const POLL_LIMIT := 500
  const POLL_SECONDS := 2
  const HEARTBEAT_SECONDS := 15

  /** A feed's sequence numbers are taken under the chat's row lock, so they grow with the commits. */
  predicate Committed(log: seq<FeedEvent>) {
    forall i, j :: 0 <= i < j < |log| ==> log[i].sequence < log[j].sequence
  }

  /** The feed as each poll finds it: rows are only ever added. */
  ghost predicate Feed(polls: seq<seq<FeedEvent>>) {
    && (forall k :: 0 <= k < |polls| ==> Committed(polls[k]))
    && (forall j, k :: 0 <= j < k < |polls| ==> polls[j] <= polls[k])
  }

  function AfterCursor(log: seq<FeedEvent>, cursor: nat): seq<FeedEvent> {
    if log == [] then []
    else
      var rest, e := AfterCursor(log[..|log| - 1], cursor), log[|log| - 1];
      if e.sequence > cursor then rest + [e] else rest
  }

  /** The query of one poll: what follows the cursor, in order, at most a page. */
  function PollPage(log: seq<FeedEvent>, cursor: nat): seq<FeedEvent> {
    var rows := AfterCursor(log, cursor);
    if |rows| <= POLL_LIMIT then rows else rows[..POLL_LIMIT]
  }

  /** The log entries a reader that started at `start` and stands at `cursor` is owed. */
  function Between(log: seq<FeedEvent>, start: nat, cursor: nat): seq<FeedEvent> {
    if log == [] then []
    else
      var rest, e := Between(log[..|log| - 1], start, cursor), log[|log| - 1];
      if start < e.sequence <= cursor then rest + [e] else rest
  }

  function EventsOf(frames: seq<Frame>): seq<FeedEvent> {
    if frames == [] then []
    else
      var rest, f := EventsOf(frames[..|frames| - 1]), frames[|frames| - 1];
      match f
      case Event(e) => rest + [e]
      case Heartbeat => rest
  }

  // ---- A committed log is a prefix up to any cursor

  /** How many entries of a log a cursor has passed: those up to the last it covers. */
  function Passed(log: seq<FeedEvent>, cursor: nat): nat {
    if log == [] then 0
    else if log[|log| - 1].sequence <= cursor then |log|
    else Passed(log[..|log| - 1], cursor)
  }

  lemma {:induction false} PassedSplits(log: seq<FeedEvent>, cursor: nat)
    requires Committed(log)
    ensures Passed(log, cursor) <= |log|
    ensures forall i :: 0 <= i < |log| ==> (i < Passed(log, cursor) <==> log[i].sequence <= cursor)
  {
    if log != [] {
      PassedSplits(log[..|log| - 1], cursor);
    }
  }

  lemma PassedIs(log: seq<FeedEvent>, cursor: nat, n: nat)
    requires Committed(log) && n <= |log|
    requires n > 0 ==> log[n - 1].sequence <= cursor
    requires n < |log| ==> log[n].sequence > cursor
    ensures Passed(log, cursor) == n
  {
  }

  lemma {:induction false} AfterCursorIsRest(log: seq<FeedEvent>, cursor: nat)
    requires Committed(log)
    ensures Passed(log, cursor) <= |log| && AfterCursor(log, cursor) == log[Passed(log, cursor)..]
  {
    if log != [] {
      var front, e := log[..|log| - 1], log[|log| - 1];
      AfterCursorIsRest(front, cursor);
      if e.sequence <= cursor {
        PassedIs(front, cursor, |front|);
      } else {
        assert log[Passed(log, cursor)..] == front[Passed(front, cursor)..] + [e];
      }
    }
  }

  lemma SliceOneMore<T>(s: seq<T>, a: nat)
    requires a < |s|
    ensures s[a..|s|] == s[..|s| - 1][a..|s| - 1] + [s[|s| - 1]]
  {
  }

  lemma SliceOfFront<T>(s: seq<T>, a: nat, b: nat)
    requires a <= b < |s|
    ensures s[a..b] == s[..|s| - 1][a..b]
  {
  }

  lemma SlicesJoin<T>(s: seq<T>, a: nat, b: nat, c: nat)
    requires a <= b <= c <= |s|
    ensures s[a..b] + s[b..c] == s[a..c]
  {
  }

  lemma {:induction false} BetweenIsMiddle(log: seq<FeedEvent>, start: nat, cursor: nat)
    requires Committed(log) && start <= cursor
    ensures Passed(log, start) <= Passed(log, cursor) <= |log|
    ensures Between(log, start, cursor) == log[Passed(log, start)..Passed(log, cursor)]
  {
    if log != [] {
      var front, e := log[..|log| - 1], log[|log| - 1];
      BetweenIsMiddle(front, start, cursor);
      if e.sequence <= cursor {
        PassedIs(front, cursor, |front|);
        if e.sequence <= start {
          PassedIs(front, start, |front|);
        } else {
          SliceOneMore(log, Passed(front, start));
        }
      } else {
        SliceOfFront(log, Passed(front, start), Passed(front, cursor));
      }
    }
  }

  /** A cursor that is the number of an entry, or that is where the reader started. */
  ghost predicate Standing(log: seq<FeedEvent>, start: nat, cursor: nat) {
    cursor == start || (cursor > start && exists i :: 0 <= i < |log| && log[i].sequence == cursor)
  }

  /** A page is the stretch of the log right after the cursor. */
  lemma PageIsNext(log: seq<FeedEvent>, cursor: nat, taken: nat)
    requires Committed(log) && 0 < taken <= |PollPage(log, cursor)|
    ensures var page, n := PollPage(log, cursor), Passed(log, cursor);
      && n + taken <= |log| && page[..taken] == log[n..n + taken] && page[taken - 1] == log[n + taken - 1]
      && cursor < page[taken - 1].sequence && Passed(log, page[taken - 1].sequence) == n + taken
  {
    AfterCursorIsRest(log, cursor);
    PassedSplits(log, cursor);
    var page, n := PollPage(log, cursor), Passed(log, cursor);
    assert page[..taken] == log[n..n + taken];
    assert page[taken - 1] == log[n + taken - 1];
    PassedIs(log, page[taken - 1].sequence, n + taken);
  }

  /** A poll continues exactly where the frames so far end, and so does every part of it that a reader takes. */
  lemma PageContinues(log: seq<FeedEvent>, start: nat, cursor: nat, taken: nat)
    requires Committed(log) && start <= cursor && 0 < taken <= |PollPage(log, cursor)|
    ensures var page := PollPage(log, cursor);
      var next := page[taken - 1].sequence;
      && cursor < next && Standing(log, start, next)
      && Between(log, start, cursor) + page[..taken] == Between(log, start, next)
  {
    PageIsNext(log, cursor, taken);
    var page, n := PollPage(log, cursor), Passed(log, cursor);
    BetweenIsMiddle(log, start, cursor);
    BetweenIsMiddle(log, start, page[taken - 1].sequence);
    assert log[Passed(log, start)..n] + log[n..n + taken] == log[Passed(log, start)..n + taken];
  }

  /** What later commits add lies beyond where the reader stands. */
  lemma LaterCommitsLieAhead(log: seq<FeedEvent>, later: seq<FeedEvent>, start: nat, cursor: nat)
    requires Committed(log) && Committed(later) && log <= later && Standing(log, start, cursor)
    ensures Between(later, start, cursor) == Between(log, start, cursor)
    ensures Standing(later, start, cursor)
  {
    BetweenIsMiddle(later, start, cursor);
    BetweenIsMiddle(log, start, cursor);
    if cursor != start {
      var i :| 0 <= i < |log| && log[i].sequence == cursor;
      PassedThrough(log, later, start, cursor, i);
      assert later[Passed(log, start)..i + 1] == log[Passed(log, start)..i + 1];
    }
  }

  lemma PassedThrough(log: seq<FeedEvent>, later: seq<FeedEvent>, start: nat, cursor: nat, i: nat)
    requires Committed(log) && Committed(later) && log <= later
    requires start < cursor && i < |log| && log[i].sequence == cursor
    ensures Passed(log, cursor) == Passed(later, cursor) == i + 1
    ensures Passed(log, start) == Passed(later, start) && later[i].sequence == cursor
  {
    assert log[i] == later[i];
    PassedIs(log, cursor, i + 1);
    PassedIs(later, cursor, i + 1);
    PassedByPrefix(log, later, start, i);
  }

  lemma PassedByPrefix(log: seq<FeedEvent>, later: seq<FeedEvent>, cursor: nat, i: nat)
    requires Committed(later) && Committed(log) && log <= later
    requires i < |log| && log[i].sequence > cursor
    ensures Passed(log, cursor) == Passed(later, cursor)
  {
    var n := Passed(log, cursor);
    PassedSplits(log, cursor);
    assert n <= i;
    assert later[n] == log[n] && (n > 0 ==> later[n - 1] == log[n - 1]);
    PassedIs(later, cursor, n);
  }

  function FramesOf(page: seq<FeedEvent>): (frames: seq<Frame>)
    ensures |frames| == |page| && forall i :: 0 <= i < |page| ==> frames[i] == Event(page[i])
  {
    seq(|page|, i requires 0 <= i < |page| => Event(page[i]))
  }

  lemma EventCarries(frames: seq<Frame>, e: FeedEvent)
    ensures EventsOf(frames + [Event(e)]) == EventsOf(frames) + [e]
  {
    assert (frames + [Event(e)])[..|frames|] == frames;
  }

  lemma {:induction false} FramesCarry(frames: seq<Frame>, page: seq<FeedEvent>)
    ensures EventsOf(frames + FramesOf(page)) == EventsOf(frames) + page
    decreases |page|
  {
    if page == [] {
      assert frames + FramesOf(page) == frames;
    } else {
      var n := |page| - 1;
      FramesCarry(frames, page[..n]);
      EventCarries(frames + FramesOf(page[..n]), page[n]);
      assert frames + FramesOf(page) == (frames + FramesOf(page[..n])) + [Event(page[n])];
      assert page == page[..n] + [page[n]];
    }
  }

  /** How much of a page a reader takes that stays for so many events. */
  function Taken(page: seq<FeedEvent>, stays: nat): nat {
    if stays < |page| then stays else |page|
  }

  /** Emits one frame an entry and moves the cursor with it, for as long as the reader stays. */
  method EmitPage(frames: seq<Frame>, page: seq<FeedEvent>, cursor: nat, stays: nat) returns (more: seq<Frame>, moved: nat)
    ensures var taken := Taken(page, stays);
      && more == frames + FramesOf(page[..taken])
      && moved == if taken == 0 then cursor else page[taken - 1].sequence
  {
    more, moved := frames, cursor;
    for i := 0 to |page|
      invariant i <= stays && more == frames + FramesOf(page[..i])
      invariant moved == if i == 0 then cursor else page[i - 1].sequence
    {
      if i == stays {
        return;
      }
      moved := page[i].sequence;
      more := more + [Event(page[i])];
    }
  }

  /** The log a reader has seen after so many polls. */
  function Seen(polls: seq<seq<FeedEvent>>, read: nat): seq<FeedEvent>
    requires read <= |polls|
  {
    if read == 0 then [] else polls[read - 1]
  }

  /** The frames are what the reader is owed of the log between its start and its cursor. */
  ghost predicate Owed(log: seq<FeedEvent>, start: nat, cursor: nat, frames: seq<Frame>) {
    && Committed(log) && cursor >= start && Standing(log, start, cursor)
    && EventsOf(frames) == Between(log, start, cursor)
  }

  /** Where a whole poll takes a cursor: to the last entry of its page. */
  function CursorOver(log: seq<FeedEvent>, cursor: nat): nat {
    var page := PollPage(log, cursor);
    if page == [] then cursor else page[|page| - 1].sequence
  }

  function CursorAfter(polls: seq<seq<FeedEvent>>, start: nat, read: nat): nat
    requires read <= |polls|
  {
    if read == 0 then start else CursorOver(polls[read - 1], CursorAfter(polls, start, read - 1))
  }

  /** A turn took what there is of the page, as much as the reader stays for, and nothing else; or, when there
      was nothing, waited, with a heartbeat when one is due. */
  ghost predicate Took(log: seq<FeedEvent>, frames: seq<Frame>, cursor: nat, idle: nat, stays: nat,
                       more: seq<Frame>, moved: nat, waited: nat) {
    var page := PollPage(log, cursor);
    var taken := Taken(page, stays);
    if page == [] then
      && moved == cursor
      && (if idle + POLL_SECONDS < HEARTBEAT_SECONDS then more == frames && waited == idle + POLL_SECONDS
          else more == frames + [Heartbeat] && waited == 0)
    else
      more == frames + FramesOf(page[..taken]) && waited == 0 && (taken > 0 ==> moved == page[taken - 1].sequence)
  }

  lemma TurnOwed(log: seq<FeedEvent>, start: nat, frames: seq<Frame>, cursor: nat, idle: nat, stays: nat,
                 more: seq<Frame>, moved: nat, waited: nat)
    requires Owed(log, start, cursor, frames) && stays > 0
    requires Took(log, frames, cursor, idle, stays, more, moved, waited)
    ensures Owed(log, start, moved, more)
    ensures |EventsOf(more)| <= |EventsOf(frames)| + stays
    ensures |EventsOf(more)| < |EventsOf(frames)| + stays ==> moved == CursorOver(log, cursor)
  {
    var page := PollPage(log, cursor);
    if page != [] {
      var taken := Taken(page, stays);
      PageContinues(log, start, cursor, taken);
      FramesCarry(frames, page[..taken]);
    } else {
      assert (frames + [Heartbeat])[..|frames|] == frames;
    }
  }

  /** One turn: a page emitted while the reader stays, or a heartbeat when one is due. */
  method Turn(log: seq<FeedEvent>, ghost start: nat, frames: seq<Frame>, cursor: nat, idle: nat, stays: nat)
    returns (more: seq<Frame>, moved: nat, waited: nat)
    requires Owed(log, start, cursor, frames) && stays > 0
    ensures Took(log, frames, cursor, idle, stays, more, moved, waited)
    ensures Owed(log, start, moved, more)
    ensures |EventsOf(more)| <= |EventsOf(frames)| + stays
    ensures |EventsOf(more)| < |EventsOf(frames)| + stays ==> moved == CursorOver(log, cursor)
  {
    more, moved, waited := frames, cursor, idle;
    var events := PollPage(log, cursor);
    if events != [] {
      more, moved := EmitPage(frames, events, cursor, stays);
      waited := 0;
    } else {
      waited := waited + POLL_SECONDS;
      if waited >= HEARTBEAT_SECONDS {
        more := more + [Heartbeat];
        waited := 0;
      }
    }
    TurnOwed(log, start, frames, cursor, idle, stays, more, moved, waited);
  }

  /** Where a reader stands after so many polls: it has what it is owed, and while it stays it has gone over
      every page in full. */
  ghost predicate Reads(polls: seq<seq<FeedEvent>>, start: nat, stays: nat, read: nat, cursor: nat, frames: seq<Frame>) {
    && read <= |polls| && |EventsOf(frames)| <= stays
    && Owed(Seen(polls, read), start, cursor, frames)
    && (|EventsOf(frames)| < stays ==> cursor == CursorAfter(polls, start, read))
  }

  // ---- When a heartbeat is emitted

  /** How many turns at the end emitted nothing. */
  function Silent(turns: seq<seq<Frame>>): nat {
    if turns == [] || turns[|turns| - 1] != [] then 0 else Silent(turns[..|turns| - 1]) + 1
  }

  function Joined(turns: seq<seq<Frame>>): seq<Frame> {
    if turns == [] then [] else Joined(turns[..|turns| - 1]) + turns[|turns| - 1]
  }

  /** What the k-th turn emits: what the reader stays for of the page, or, when the page is empty, a heartbeat
      when this turn would bring the silence up to the limit. */
  ghost predicate Emits(polls: seq<seq<FeedEvent>>, start: nat, stays: nat, before: seq<seq<Frame>>, turn: seq<Frame>)
    requires |before| < |polls|
  {
    var k := |before|;
    var page := PollPage(polls[k], CursorAfter(polls, start, k));
    var passed := |EventsOf(Joined(before))|;
    && passed < stays
    && if page == [] then turn == (if POLL_SECONDS * (Silent(before) + 1) >= HEARTBEAT_SECONDS then [Heartbeat] else [])
       else turn == FramesOf(page[..Taken(page, stays - passed)])
  }

  ghost predicate EmittedInTurn(polls: seq<seq<FeedEvent>>, start: nat, stays: nat, turns: seq<seq<Frame>>) {
    turns != [] ==>
      var before := turns[..|turns| - 1];
      |turns| <= |polls| && EmittedInTurn(polls, start, stays, before) && Emits(polls, start, stays, before, turns[|turns| - 1])
  }

  /** The frames so far are those of the turns, and the wait carried over is the length of the silence. */
  ghost predicate Waited(polls: seq<seq<FeedEvent>>, start: nat, stays: nat, turns: seq<seq<Frame>>, frames: seq<Frame>, idle: nat) {
    EmittedInTurn(polls, start, stays, turns) && frames == Joined(turns) && idle == POLL_SECONDS * Silent(turns)
  }

  /** What a turn adds to the frames, and the wait it hands on. */
  lemma TurnFrames(log: seq<FeedEvent>, frames: seq<Frame>, cursor: nat, idle: nat, stays: nat, more: seq<Frame>, moved: nat, waited: nat)
    returns (turn: seq<Frame>)
    requires Took(log, frames, cursor, idle, stays, more, moved, waited) && stays > 0
    ensures more == frames + turn
    ensures var page := PollPage(log, cursor);
      turn == if page != [] then FramesOf(page[..Taken(page, stays)])
              else if idle + POLL_SECONDS >= HEARTBEAT_SECONDS then [Heartbeat] else []
    ensures waited == if turn == [] then idle + POLL_SECONDS else 0
  {
    turn := more[|frames|..];
  }

  lemma NextTurn(polls: seq<seq<FeedEvent>>, start: nat, stays: nat, turns: seq<seq<Frame>>, frames: seq<Frame>, cursor: nat, idle: nat,
                 more: seq<Frame>, moved: nat, waited: nat) returns (turn: seq<Frame>)
    requires Waited(polls, start, stays, turns, frames, idle)
    requires Reads(polls, start, stays, |turns|, cursor, frames) && |turns| < |polls| && |EventsOf(frames)| < stays
    requires Took(polls[|turns|], frames, cursor, idle, stays - |EventsOf(frames)|, more, moved, waited)
    ensures Waited(polls, start, stays, turns + [turn], more, waited)
  {
    turn := TurnFrames(polls[|turns|], frames, cursor, idle, stays - |EventsOf(frames)|, more, moved, waited);
    assert cursor == CursorAfter(polls, start, |turns|);
    OneMoreTurn(polls, start, stays, turns, turn);
  }

  lemma OneMoreTurn(polls: seq<seq<FeedEvent>>, start: nat, stays: nat, turns: seq<seq<Frame>>, turn: seq<Frame>)
    requires EmittedInTurn(polls, start, stays, turns) && |turns| < |polls| && Emits(polls, start, stays, turns, turn)
    ensures EmittedInTurn(polls, start, stays, turns + [turn])
    ensures Joined(turns + [turn]) == Joined(turns) + turn
    ensures Silent(turns + [turn]) == if turn == [] then Silent(turns) + 1 else 0
  {
    assert (turns + [turn])[..|turns|] == turns;
  }

  /** So many turns at the end, and no more, emitted nothing. */
  lemma {:induction false} SilentSpan(turns: seq<seq<Frame>>)
    ensures Silent(turns) <= |turns|
    ensures forall j :: |turns| - Silent(turns) <= j < |turns| ==> turns[j] == []
    ensures Silent(turns) < |turns| ==> turns[|turns| - Silent(turns) - 1] != []
  {
    if turns != [] && turns[|turns| - 1] == [] {
      SilentSpan(turns[..|turns| - 1]);
    }
  }

  lemma {:induction false} EmittedSoFar(polls: seq<seq<FeedEvent>>, start: nat, stays: nat, turns: seq<seq<Frame>>, k: nat)
    requires EmittedInTurn(polls, start, stays, turns) && k <= |turns|
    ensures EmittedInTurn(polls, start, stays, turns[..k])
    ensures k < |turns| ==> k < |polls| && Emits(polls, start, stays, turns[..k], turns[k])
    decreases |turns|
  {
    if k == |turns| {
      assert turns[..k] == turns;
    } else if k < |turns| - 1 {
      var before := turns[..|turns| - 1];
      EmittedSoFar(polls, start, stays, before, k);
      assert before[..k] == turns[..k];
    }
  }

  /** The silence never comes up to the limit. */
  lemma {:induction false} SilenceIsShort(polls: seq<seq<FeedEvent>>, start: nat, stays: nat, turns: seq<seq<Frame>>)
    requires EmittedInTurn(polls, start, stays, turns)
    ensures POLL_SECONDS * Silent(turns) < HEARTBEAT_SECONDS
  {
  }

  /** As many silent turns as come to less than the limit. */
  const QUIET_TURNS: nat := (HEARTBEAT_SECONDS - 1) / POLL_SECONDS

  ghost predicate QuietBefore(turns: seq<seq<Frame>>, k: nat)
    requires k <= |turns|
  {
    k >= QUIET_TURNS && forall j :: k - QUIET_TURNS <= j < k ==> turns[j] == []
  }

  lemma SilentIff(before: seq<seq<Frame>>)
    requires Silent(before) <= QUIET_TURNS
    ensures Silent(before) == QUIET_TURNS <==> QuietBefore(before, |before|)
  {
    SilentSpan(before);
  }

  /** A poll that finds nothing emits a heartbeat exactly when the seven turns before it emitted nothing; so no more
      than seven turns in a row are silent. */
  lemma HeartbeatIff(polls: seq<seq<FeedEvent>>, start: nat, stays: nat, turns: seq<seq<Frame>>, k: nat)
    requires EmittedInTurn(polls, start, stays, turns) && k < |turns| <= |polls|
    requires PollPage(polls[k], CursorAfter(polls, start, k)) == []
    ensures turns[k] == if QuietBefore(turns, k) then [Heartbeat] else []
  {
    var before := turns[..k];
    EmittedSoFar(polls, start, stays, turns, k);
    SilenceIsShort(polls, start, stays, before);
    SilentIff(before);
    QuietOfPrefix(turns, k);
  }

  lemma QuietOfPrefix(turns: seq<seq<Frame>>, k: nat)
    requires k <= |turns|
    ensures QuietBefore(turns[..k], k) <==> QuietBefore(turns, k)
  {
    assert forall j :: 0 <= j < k ==> turns[..k][j] == turns[j];
  }

  /** The reader's loop, one turn a poll. The reader leaves after `stays` events, perhaps in the middle of a
      page, or when the polls end. However it left, and however the waits between polls ended, the event
      frames are the log entries after the start up to the cursor, in order, without gap or repeat, as the
      last poll found the log. Until it leaves the cursor goes over the page of every poll in full; and when
      the last poll found nothing new, the frames are all there is. */
  method EventStream(polls: seq<seq<FeedEvent>>, start: nat, stays: nat)
    returns (frames: seq<Frame>, cursor: nat, read: nat, ghost turns: seq<seq<Frame>>)
    requires Feed(polls)
    ensures |turns| == read && EmittedInTurn(polls, start, stays, turns) && frames == Joined(turns)
    ensures read <= |polls| && (read == |polls| || |EventsOf(frames)| == stays)
    ensures cursor >= start && Standing(Seen(polls, read), start, cursor)
    ensures EventsOf(frames) == Between(Seen(polls, read), start, cursor)
    ensures |EventsOf(frames)| < stays ==> cursor == CursorAfter(polls, start, |polls|)
    ensures PollPage(Seen(polls, read), cursor) == [] ==> EventsOf(frames) == AfterCursor(Seen(polls, read), start)
  {
    cursor, frames, read, turns := start, [], 0, [];
    var idle := 0;
    while read < |polls| && |EventsOf(frames)| < stays
      invariant Reads(polls, start, stays, read, cursor, frames)
      invariant |turns| == read && Waited(polls, start, stays, turns, frames, idle)
      decreases |polls| - read
    {
      var more, moved, waited := PollOnce(polls, start, stays, read, cursor, frames, idle);
      ghost var turn := NextTurn(polls, start, stays, turns, frames, cursor, idle, more, moved, waited);
      turns := turns + [turn];
      frames, cursor, idle, read := more, moved, waited, read + 1;
    }
    CaughtUp(Seen(polls, read), start, cursor);
  }

  /** The turn of the next poll. */
  method PollOnce(polls: seq<seq<FeedEvent>>, ghost start: nat, stays: nat, read: nat, cursor: nat, frames: seq<Frame>, idle: nat)
    returns (more: seq<Frame>, moved: nat, waited: nat)
    requires Feed(polls) && Reads(polls, start, stays, read, cursor, frames)
    requires read < |polls| && |EventsOf(frames)| < stays
    ensures Reads(polls, start, stays, read + 1, moved, more)
    ensures Took(polls[read], frames, cursor, idle, stays - |EventsOf(frames)|, more, moved, waited)
  {
    NextPoll(polls, read, start, cursor, frames);
    more, moved, waited := Turn(polls[read], start, frames, cursor, idle, stays - |EventsOf(frames)|);
    TurnReads(polls, start, stays, read, cursor, frames, moved, more);
  }

  lemma TurnReads(polls: seq<seq<FeedEvent>>, start: nat, stays: nat, read: nat, cursor: nat, frames: seq<Frame>,
                  moved: nat, more: seq<Frame>)
    requires Reads(polls, start, stays, read, cursor, frames) && read < |polls| && |EventsOf(frames)| < stays
    requires Owed(polls[read], start, moved, more) && |EventsOf(more)| <= stays
    requires |EventsOf(more)| < stays ==> moved == CursorOver(polls[read], cursor)
    ensures Reads(polls, start, stays, read + 1, moved, more)
  {
  }

  /** Where so many polls of one log take a cursor. */
  function CursorOverAll(log: seq<FeedEvent>, cursor: nat, n: nat): nat {
    if n == 0 then cursor else CursorOver(log, CursorOverAll(log, cursor, n - 1))
  }

  lemma PollPasses(log: seq<FeedEvent>, cursor: nat)
    requires Committed(log)
    ensures var n := Passed(log, cursor);
      Passed(log, CursorOver(log, cursor)) == if n + POLL_LIMIT <= |log| then n + POLL_LIMIT else |log|
  {
    AfterCursorIsRest(log, cursor);
    var page := PollPage(log, cursor);
    if page != [] {
      PageIsNext(log, cursor, |page|);
    }
  }

  /** A reader catches up: over a log that stands still every poll passes a full page of entries, until all
      are passed. */
  lemma {:induction false} CatchesUp(log: seq<FeedEvent>, cursor: nat, n: nat)
    requires Committed(log)
    ensures var passed := Passed(log, cursor) + n * POLL_LIMIT;
      Passed(log, CursorOverAll(log, cursor, n)) == if passed <= |log| then passed else |log|
  {
    PassedSplits(log, cursor);
    if n > 0 {
      CatchesUp(log, cursor, n - 1);
      PollPasses(log, CursorOverAll(log, cursor, n - 1));
    }
  }

  /** The next poll finds the log grown, and the reader owed what it was. */
  lemma NextPoll(polls: seq<seq<FeedEvent>>, read: nat, start: nat, cursor: nat, frames: seq<Frame>)
    requires Feed(polls) && read < |polls| && Owed(Seen(polls, read), start, cursor, frames)
    ensures Owed(polls[read], start, cursor, frames)
  {
    LaterCommitsLieAhead(Seen(polls, read), polls[read], start, cursor);
  }

  /** A reader that left and comes back with the last id it saw misses nothing and is told nothing twice: the
      two sessions are together what one session from the first start would be. */
  lemma ResumedSession(log: seq<FeedEvent>, later: seq<FeedEvent>, start: nat, left: nat, cursor: nat)
    requires Committed(log) && Committed(later) && log <= later
    requires start <= left <= cursor && Standing(log, start, left)
    ensures Between(log, start, left) + Between(later, left, cursor) == Between(later, start, cursor)
  {
    LaterCommitsLieAhead(log, later, start, left);
    BetweenIsMiddle(later, start, left);
    BetweenIsMiddle(later, left, cursor);
    BetweenIsMiddle(later, start, cursor);
    SlicesJoin(later, Passed(later, start), Passed(later, left), Passed(later, cursor));
  }

  lemma CaughtUp(log: seq<FeedEvent>, start: nat, cursor: nat)
    requires Committed(log) && cursor >= start
    ensures PollPage(log, cursor) == [] ==> Between(log, start, cursor) == AfterCursor(log, start)
  {
  }
}
