/** Consensus authentication (AttendanceSystem.authenticate_employee): one matcher
    task per enabled modality, timed-out tasks dropped, and an identity accepted
    only when every task that answered gave the same one. */
module Consensus {
  import opened Wrappers

  datatype Modality = Facial | Finger | Iris

  /** config["authentication"]: which matchers take part in an attempt. */
  datatype AuthFlags = AuthFlags(facial: bool, finger: bool, iris: bool)

  predicate Enabled(flags: AuthFlags, m: Modality) {
    match m
    case Facial => flags.facial
    case Finger => flags.finger
    case Iris => flags.iris
  }

  /** The order in which the task list is built. */
  function Rank(m: Modality): nat {
    match m
    case Facial => 0
    case Finger => 1
    case Iris => 2
  }

  /** The task list: every enabled modality once, facial before finger before iris. */
  function Tasks(flags: AuthFlags): (ts: seq<Modality>)
    ensures forall m :: m in ts <==> Enabled(flags, m)
    ensures forall i, j :: 0 <= i < j < |ts| ==> Rank(ts[i]) < Rank(ts[j])
  {
    (if flags.facial then [Facial] else []) +
    (if flags.finger then [Finger] else []) +
    (if flags.iris then [Iris] else [])
  }

  /** What `async_result.get(timeout=5)` gives for one task: no answer in time, the
      matcher's return value (an employee id or None), or the exception the matcher
      raised, which `get` raises again in the caller. */
  datatype Outcome = Timeout | Responded(identity: Option<string>) | Raised

  /** How each modality's matcher behaves on this attempt. */
  datatype Pool = Pool(facial: Outcome, finger: Outcome, iris: Outcome)

  function OutcomeOf(pool: Pool, m: Modality): Outcome {
    match m
    case Facial => pool.facial
    case Finger => pool.finger
    case Iris => pool.iris
  }

  /** The outcomes of the tasks, in task order. */
  function Outcomes(pool: Pool, ts: seq<Modality>): seq<Outcome> {
    seq(|ts|, i requires 0 <= i < |ts| => OutcomeOf(pool, ts[i]))
  }

  /** The results list after the collection loop, or the escape of a matcher's exception. */
  datatype Collection = Collected(responses: seq<Option<string>>) | MatcherRaised

  /** The collection loop over the given outcomes: a timeout is skipped with
      `continue`, an answer is appended, and an exception leaves the loop. */
  function Collect(os: seq<Outcome>): Collection
  {
    if os == [] then Collected([])
    else
      match Collect(os[..|os| - 1])
      case MatcherRaised => MatcherRaised
      case Collected(rs) =>
        match os[|os| - 1]
        case Timeout => Collected(rs)
        case Responded(v) => Collected(rs + [v])
        case Raised => MatcherRaised
  }

  /** Once an exception has escaped, later tasks are not looked at. */
  lemma {:induction false} RaisedPersists(os: seq<Outcome>, k: nat)
    requires k <= |os| && Collect(os[..k]) == MatcherRaised
    ensures Collect(os) == MatcherRaised
    decreases |os| - k
  {
    if k < |os| {
      assert os[..k + 1][..k] == os[..k];
      RaisedPersists(os, k + 1);
    } else {
      assert os[..k] == os;
    }
  }

  /** The answered values among the outcomes, in task order, read from the front. */
  function Answers(os: seq<Outcome>): seq<Option<string>>
  {
    if os == [] then []
    else (if os[0].Responded? then [os[0].identity] else []) + Answers(os[1..])
  }

  /** Filtering a concatenation filters each part. */
  lemma {:induction false} AnswersAppend(a: seq<Outcome>, b: seq<Outcome>)
    ensures Answers(a + b) == Answers(a) + Answers(b)
  {
    if a != [] {
      assert (a + b)[1..] == a[1..] + b;
      AnswersAppend(a[1..], b);
    } else {
      assert a + b == b;
    }
  }

  /** The collection keeps exactly the answers: an exception anywhere escapes, and
      otherwise the results list is the answered values in task order, each as many
      times as it was answered, with every timeout dropped. */
  lemma {:induction false} CollectSpec(os: seq<Outcome>)
    ensures Collect(os) == MatcherRaised <==> Raised in os
    ensures Collect(os).Collected? ==> Collect(os).responses == Answers(os)
    ensures Collect(os).Collected? ==>
      (forall v :: v in Collect(os).responses <==> Responded(v) in os) &&
      |Collect(os).responses| == |os| - multiset(os)[Timeout]
  {
    if os != [] {
      var init, last := os[..|os| - 1], os[|os| - 1];
      assert os == init + [last];
      CollectSpec(init);
      AnswersAppend(init, [last]);
      assert Answers([last]) == (if last.Responded? then [last.identity] else []) by {
        assert [last][1..] == [];
      }
      assert multiset(os) == multiset(init) + multiset{last};
      assert forall o :: o in os <==> o in init || o == last;
    }
  }

  /** `results and all(r == results[0] for r in results)`: the common value of a
      non-empty, unanimous list, and None otherwise. */
  function Consensus(rs: seq<Option<string>>): (r: Option<string>)
    ensures forall v :: r == Some(v) <==> |rs| > 0 && forall k :: 0 <= k < |rs| ==> rs[k] == Some(v)
  {
    if |rs| > 0 && forall k :: 0 <= k < |rs| ==> rs[k] == rs[0] then rs[0] else None
  }

  /** The order in which the answers arrived does not matter. */
  lemma ConsensusIgnoresOrder(a: seq<Option<string>>, b: seq<Option<string>>)
    requires multiset(a) == multiset(b)
    ensures Consensus(a) == Consensus(b)
  {
    if |a| > 0 && forall k :: 0 <= k < |a| ==> a[k] == a[0] {
      assert a[0] in multiset(b);
      assert forall k :: 0 <= k < |b| ==> b[k] in multiset(a);
    }
    if |b| > 0 && forall k :: 0 <= k < |b| ==> b[k] == b[0] {
      assert b[0] in multiset(a);
      assert forall k :: 0 <= k < |a| ==> a[k] in multiset(b);
    }
  }

  /** What authenticate_employee returns, or that it raised. */
  datatype AuthResult = Answer(identity: Option<string>) | Fault

  /** authenticate_employee as a function of the configuration and the matchers. */
  function Authenticate(flags: AuthFlags, pool: Pool): AuthResult
  {
    var ts := Tasks(flags);
    if ts == [] then Answer(None)
    else
      match Collect(Outcomes(pool, ts))
      case MatcherRaised => Fault
      case Collected(rs) => Answer(Consensus(rs))
  }

  /** An outcome occurs among the tasks exactly when some enabled modality has it. */
  lemma OutcomesOfTasks(flags: AuthFlags, pool: Pool, o: Outcome)
    ensures o in Outcomes(pool, Tasks(flags)) <==> exists m :: Enabled(flags, m) && OutcomeOf(pool, m) == o
  {
    var ts := Tasks(flags);
    var os := Outcomes(pool, ts);
    if o in os {
      var i :| 0 <= i < |os| && os[i] == o;
      assert Enabled(flags, ts[i]);
    }
    if exists m :: Enabled(flags, m) && OutcomeOf(pool, m) == o {
      var m :| Enabled(flags, m) && OutcomeOf(pool, m) == o;
      var i :| 0 <= i < |ts| && ts[i] == m;
      assert os[i] == o;
    }
  }

  /** The attempt fails with an exception exactly when an enabled matcher raised. */
  lemma AuthenticateFaults(flags: AuthFlags, pool: Pool)
    ensures Authenticate(flags, pool) == Fault <==> exists m :: Enabled(flags, m) && OutcomeOf(pool, m) == Raised
  {
    CollectSpec(Outcomes(pool, Tasks(flags)));
    OutcomesOfTasks(flags, pool, Raised);
  }

  /** The attempt yields employee v exactly when no enabled matcher raised, at least
      one answered in time, and every one that answered said v. */
  lemma AuthenticateIdentifies(flags: AuthFlags, pool: Pool, v: string)
    ensures Authenticate(flags, pool) == Answer(Some(v)) <==>
      (forall m :: Enabled(flags, m) ==> OutcomeOf(pool, m) != Raised) &&
      (exists m :: Enabled(flags, m) && OutcomeOf(pool, m).Responded?) &&
      (forall m :: Enabled(flags, m) && OutcomeOf(pool, m).Responded? ==> OutcomeOf(pool, m).identity == Some(v))
  {
    var ts := Tasks(flags);
    var os := Outcomes(pool, ts);
    CollectSpec(os);
    AuthenticateFaults(flags, pool);
    if Collect(os).Collected? {
      var rs := Collect(os).responses;
      forall w
        ensures Responded(w) in os <==> exists m :: Enabled(flags, m) && OutcomeOf(pool, m) == Responded(w)
      {
        OutcomesOfTasks(flags, pool, Responded(w));
      }
      if exists m :: Enabled(flags, m) && OutcomeOf(pool, m).Responded? {
        var m :| Enabled(flags, m) && OutcomeOf(pool, m).Responded?;
        assert OutcomeOf(pool, m) == Responded(OutcomeOf(pool, m).identity);
        assert OutcomeOf(pool, m).identity in rs;
      }
      if |rs| > 0 {
        assert rs[0] in rs;
        assert Responded(rs[0]) in os;
      }
      if forall m :: Enabled(flags, m) && OutcomeOf(pool, m).Responded? ==> OutcomeOf(pool, m).identity == Some(v) {
        forall k | 0 <= k < |rs| ensures rs[k] == Some(v) {
          assert rs[k] in rs;
          assert Responded(rs[k]) in os;
        }
      }
      if |rs| > 0 && forall k :: 0 <= k < |rs| ==> rs[k] == Some(v) {
        forall m | Enabled(flags, m) && OutcomeOf(pool, m).Responded?
          ensures OutcomeOf(pool, m).identity == Some(v)
        {
          assert OutcomeOf(pool, m) == Responded(OutcomeOf(pool, m).identity);
          var w := OutcomeOf(pool, m).identity;
          assert w in rs;
        }
      }
    }
  }

  /** Disagreement between two answering matchers voids the attempt. */
  lemma DisagreementVoids(flags: AuthFlags, pool: Pool, m1: Modality, m2: Modality)
    requires Enabled(flags, m1) && Enabled(flags, m2)
    requires OutcomeOf(pool, m1).Responded? && OutcomeOf(pool, m2).Responded?
    requires OutcomeOf(pool, m1).identity != OutcomeOf(pool, m2).identity
    ensures Authenticate(flags, pool) == Answer(None) || Authenticate(flags, pool) == Fault
  {
    if Authenticate(flags, pool).Answer? && Authenticate(flags, pool).identity.Some? {
      AuthenticateIdentifies(flags, pool, Authenticate(flags, pool).identity.value);
    }
  }

  /** The matchers of disabled modalities have no influence on the attempt. */
  lemma DisabledMatchersIgnored(flags: AuthFlags, p1: Pool, p2: Pool)
    requires forall m :: Enabled(flags, m) ==> OutcomeOf(p1, m) == OutcomeOf(p2, m)
    ensures Authenticate(flags, p1) == Authenticate(flags, p2)
  {
    var ts := Tasks(flags);
    assert Outcomes(p1, ts) == Outcomes(p2, ts) by {
      forall i | 0 <= i < |ts| ensures Outcomes(p1, ts)[i] == Outcomes(p2, ts)[i] {
        assert ts[i] in ts;
      }
    }
  }

  /** authenticate_employee: build the task list, collect each task's result in
      order, and apply the consensus rule. */
  method AuthenticateEmployee(flags: AuthFlags, pool: Pool) returns (r: AuthResult)
    ensures r == Authenticate(flags, pool)
  {
    var tasks: seq<Modality> := [];
    if flags.facial {
      tasks := tasks + [Facial];
    }
    if flags.finger {
      tasks := tasks + [Finger];
    }
    if flags.iris {
      tasks := tasks + [Iris];
    }
    assert tasks == Tasks(flags);
    if tasks == [] {
      return Answer(None);
    }

    ghost var os := Outcomes(pool, tasks);
    var results: seq<Option<string>> := [];
    var i := 0;
    while i < |tasks|
      invariant 0 <= i <= |tasks|
      invariant Collect(os[..i]) == Collected(results)
    {
      assert os[..i + 1][..i] == os[..i];
      match OutcomeOf(pool, tasks[i]) {
        case Timeout =>
        case Responded(v) =>
          results := results + [v];
        case Raised =>
          RaisedPersists(os, i + 1);
          return Fault;
      }
      i := i + 1;
    }
    assert os[..i] == os;
    r := Answer(Consensus(results));
  }
}
