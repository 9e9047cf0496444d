/** The writer goroutine as a state machine: callers queue requests at any time, one writer puts whole
    queues into one commit each. Every run answers every request once, in order, and as if each request
    had run in a transaction of its own. */
module GroupCommit {
  import opened Wrappers
  import opened TotalsKeys
  import opened TrafficStore

  datatype Answer = Recorded(outcome: Option<string>) | CommitFailed

  /** What the writer is doing: not running, at the top of its loop, holding a batch it has not yet
      committed, or handing out the answers of a batch. */
  datatype Writer =
    | Stopped
    | AtTop
    | Committing(batch: seq<Request>)
    | Answering(rest: seq<Answer>)

  /** `submitted`, `commits` and `answers` are the history: every request ever queued, whether its
      transaction committed, and what its caller was told, in queueing order. */
  datatype State = State(totals: Totals, queue: seq<Request>, writing: bool, writer: Writer,
                         submitted: seq<Request>, commits: seq<bool>, answers: seq<Answer>)

  ghost predicate Init(s: State) {
    s.queue == [] && !s.writing && s.writer == Stopped && s.submitted == [] && s.commits == [] && s.answers == []
  }

  function Told(outcomes: seq<Option<string>>): seq<Answer> {
    seq(|outcomes|, i requires 0 <= i < |outcomes| => Recorded(outcomes[i]))
  }

  function Repeat<T>(x: T, n: nat): (s: seq<T>)
    ensures |s| == n && forall i :: 0 <= i < n ==> s[i] == x
  {
    seq(n, _ => x)
  }

  lemma ToldSnoc(outcomes: seq<Option<string>>, outcome: Option<string>)
    ensures Told(outcomes + [outcome]) == Told(outcomes) + [Recorded(outcome)]
  {
  }

  lemma RepeatSnoc<T>(x: T, n: nat)
    ensures Repeat(x, n + 1) == Repeat(x, n) + [x]
  {
  }

  /** One step of the callers or of the writer. */
  ghost predicate Next(s: State, t: State) {
    || Submits(s, t)
    || Takes(s, t)
    || Exits(s, t)
    || Commits(s, t)
    || Fails(s, t)
    || Answers(s, t)
    || Wraps(s, t)
  }

  ghost predicate Submits(s: State, t: State) {
    exists q ::
      t == s.(queue := s.queue + [q], submitted := s.submitted + [q], writing := true,
              writer := if s.writing then s.writer else AtTop)
  }

  ghost predicate Takes(s: State, t: State) {
    s.writer == AtTop && s.queue != [] && t == s.(queue := [], writer := Committing(s.queue))
  }

  ghost predicate Exits(s: State, t: State) {
    s.writer == AtTop && s.queue == [] && t == s.(writing := false, writer := Stopped)
  }

  ghost predicate Commits(s: State, t: State) {
    && s.writer.Committing?
    && var (totals, outcomes) := RecordSingly(s.totals, s.writer.batch);
       t == s.(totals := totals, writer := Answering(Told(outcomes)),
               commits := s.commits + Repeat(true, |s.writer.batch|))
  }

  ghost predicate Fails(s: State, t: State) {
    && s.writer.Committing?
    && t == s.(writer := Answering(Repeat(CommitFailed, |s.writer.batch|)),
               commits := s.commits + Repeat(false, |s.writer.batch|))
  }

  ghost predicate Answers(s: State, t: State) {
    && s.writer.Answering? && s.writer.rest != []
    && t == s.(writer := Answering(s.writer.rest[1..]), answers := s.answers + [s.writer.rest[0]])
  }

  ghost predicate Wraps(s: State, t: State) {
    s.writer == Answering([]) && t == s.(writer := AtTop)
  }

  /** The reference: each request in its own transaction, which commits or fails on its own. */
  ghost function Singly(totals: Totals, requests: seq<Request>, commits: seq<bool>): (Totals, seq<Answer>)
    requires |commits| == |requests|
    ensures |Singly(totals, requests, commits).1| == |requests|
  {
    var n := |requests| - 1;
    if requests == [] then (totals, [])
    else
      var (before, answers) := Singly(totals, requests[..n], commits[..n]);
      if commits[n] then
        var (after, outcome) := RecordOne(before, requests[n]);
        (after, answers + [Recorded(outcome)])
      else (before, answers + [CommitFailed])
  }

  lemma SinglySnoc(totals: Totals, requests: seq<Request>, commits: seq<bool>, q: Request, commit: bool)
    requires |commits| == |requests|
    ensures var (before, answers) := Singly(totals, requests, commits);
            Singly(totals, requests + [q], commits + [commit]) ==
              if commit then (RecordOne(before, q).0, answers + [Recorded(RecordOne(before, q).1)])
              else (before, answers + [CommitFailed])
  {
    InitSnoc(requests, q);
    assert (commits + [commit])[..|requests|] == commits;
  }

  /** A committed batch is its requests committed one by one. */
  lemma {:induction false} SinglyCommits(totals: Totals, requests: seq<Request>, commits: seq<bool>,
                                         batch: seq<Request>)
    requires |commits| == |requests|
    ensures var (before, answers) := Singly(totals, requests, commits);
            var (after, outcomes) := RecordSingly(before, batch);
            Singly(totals, requests + batch, commits + Repeat(true, |batch|)) == (after, answers + Told(outcomes))
  {
    var (before, answers) := Singly(totals, requests, commits);
    if batch == [] {
      assert requests + batch == requests && commits + Repeat(true, |batch|) == commits;
      assert answers + Told([]) == answers;
    } else {
      var n := |batch| - 1;
      SinglyCommits(totals, requests, commits, batch[..n]);
      SinglySnoc(totals, requests + batch[..n], commits + Repeat(true, n), batch[n], true);
      ConcatSnoc(requests, batch[..n], batch[n]);
      Unsnoc(batch);
      RepeatSnoc(true, n);
      ConcatSnoc(commits, Repeat(true, n), true);
      var earlier, outcomes := RecordSingly(before, batch[..n]).1, RecordSingly(before, batch).1;
      ToldSnoc(earlier, outcomes[n]);
      ConcatSnoc(answers, Told(earlier), Recorded(outcomes[n]));
    }
  }

  /** A failed commit is every one of its requests failing. */
  lemma {:induction false} SinglyFails(totals: Totals, requests: seq<Request>, commits: seq<bool>, batch: seq<Request>)
    requires |commits| == |requests|
    ensures var (before, answers) := Singly(totals, requests, commits);
            Singly(totals, requests + batch, commits + Repeat(false, |batch|)) ==
              (before, answers + Repeat(CommitFailed, |batch|))
  {
    var (before, answers) := Singly(totals, requests, commits);
    if batch == [] {
      assert requests + batch == requests && commits + Repeat(false, |batch|) == commits;
      assert answers + Repeat(CommitFailed, 0) == answers;
    } else {
      var n := |batch| - 1;
      SinglyFails(totals, requests, commits, batch[..n]);
      SinglySnoc(totals, requests + batch[..n], commits + Repeat(false, n), batch[n], false);
      ConcatSnoc(requests, batch[..n], batch[n]);
      Unsnoc(batch);
      RepeatSnoc(false, n);
      RepeatSnoc(CommitFailed, n);
      ConcatSnoc(commits, Repeat(false, n), false);
      ConcatSnoc(answers, Repeat(CommitFailed, n), CommitFailed);
    }
  }

  function InBatch(w: Writer): seq<Request> { if w.Committing? then w.batch else [] }

  function InReply(w: Writer): seq<Answer> { if w.Answering? then w.rest else [] }

  /** Requests are decided, then in the batch, then queued, in order; decided ones are answered or about
      to be, exactly as if they had run singly; a queue never waits without a running writer. */
  ghost predicate Inv(initial: Totals, s: State) {
    && |s.commits| <= |s.submitted|
    && s.submitted[|s.commits|..] == InBatch(s.writer) + s.queue
    && Singly(initial, s.submitted[..|s.commits|], s.commits) == (s.totals, s.answers + InReply(s.writer))
    && (s.writing <==> s.writer != Stopped)
    && (s.queue != [] ==> s.writing)
  }

  lemma SubmitKeeps(initial: Totals, s: State, t: State)
    requires Inv(initial, s) && Submits(s, t)
    ensures Inv(initial, t)
  {
    var n := |s.commits|;
    assert t.submitted[..n] == s.submitted[..n];
    assert t.submitted[n..] == s.submitted[n..] + t.queue[|s.queue|..];
    assert InBatch(s.writer) + s.queue + t.queue[|s.queue|..] == InBatch(s.writer) + t.queue;
  }

  lemma Batched<T>(submitted: seq<T>, n: nat, batch: seq<T>, queue: seq<T>)
    requires n <= |submitted| && submitted[n..] == batch + queue
    ensures n + |batch| <= |submitted| && submitted[..n + |batch|] == submitted[..n] + batch
    ensures submitted[n + |batch|..] == queue == [] + queue
  {
    assert submitted == submitted[..n] + (batch + queue);
  }

  lemma DecideKeeps(initial: Totals, s: State, t: State)
    requires Inv(initial, s) && (Commits(s, t) || Fails(s, t))
    ensures Inv(initial, t)
  {
    var n, batch := |s.commits|, s.writer.batch;
    Batched(s.submitted, n, batch, s.queue);
    assert s.answers + [] == s.answers;
    if Commits(s, t) {
      SinglyCommits(initial, s.submitted[..n], s.commits, batch);
    } else {
      SinglyFails(initial, s.submitted[..n], s.commits, batch);
    }
  }

  lemma StepKeeps(initial: Totals, s: State, t: State)
    requires Inv(initial, s) && Next(s, t)
    ensures Inv(initial, t)
  {
    if Submits(s, t) {
      SubmitKeeps(initial, s, t);
    } else if Commits(s, t) || Fails(s, t) {
      DecideKeeps(initial, s, t);
    } else if Answers(s, t) {
      assert s.answers + s.writer.rest == t.answers + t.writer.rest;
    }
  }

  ghost predicate Run(states: seq<State>) {
    states != [] && Init(states[0]) && forall i :: 0 <= i < |states| - 1 ==> Next(states[i], states[i + 1])
  }

  lemma {:induction false} RunKeeps(states: seq<State>)
    requires Run(states)
    ensures Inv(states[0].totals, states[|states| - 1])
  {
    var n := |states| - 1;
    if n > 0 {
      assert Run(states[..n]);
      RunKeeps(states[..n]);
      StepKeeps(states[0].totals, states[n - 1], states[n]);
    } else {
      assert states[0].submitted[..0] == [];
    }
  }

  /** In every reachable state the answers given so far are, in order, those of running the requests one
      by one; no request is answered twice; a waiting request always has a running writer. */
  lemma AnswersAreSingle(states: seq<State>)
    requires Run(states)
    ensures var s := states[|states| - 1];
            && |s.answers| <= |s.commits| <= |s.submitted|
            && s.answers <= Singly(states[0].totals, s.submitted[..|s.commits|], s.commits).1
            && (|s.answers| < |s.submitted| ==> s.writing && s.writer != Stopped)
  {
    RunKeeps(states);
    var s := states[|states| - 1];
    var done := Singly(states[0].totals, s.submitted[..|s.commits|], s.commits).1;
    assert |done| == |s.commits|;
    assert |s.submitted| == |s.commits| + |InBatch(s.writer) + s.queue|;
  }

  /** When the writer has stopped, every request has its answer and the totals are those of single
      transactions. */
  lemma StoppedMeansDone(states: seq<State>)
    requires Run(states) && states[|states| - 1].writer == Stopped
    ensures var s := states[|states| - 1];
            && s.queue == [] && |s.answers| == |s.submitted| == |s.commits|
            && Singly(states[0].totals, s.submitted, s.commits) == (s.totals, s.answers)
  {
    RunKeeps(states);
    var s := states[|states| - 1];
    assert InBatch(s.writer) + s.queue == [];
    assert s.submitted[..|s.commits|] == s.submitted;
    assert s.answers + InReply(s.writer) == s.answers;
  }
}
