/** The optimization loops: what they ask of the optimizer and what they
    record, for every answer of the optimizer, the acquisition, the evaluation
    and the engine. */
module OptimizePlans {
  import opened Prelude

  datatype TrialId = IntId(value: int) | StrId(text: string) {
    /** The form ids are grouped by when a step is recorded. */
    function Show(): string {
      match this
      case IntId(v) => if v < 0 then "-" + Decimal(-v) else Decimal(v)
      case StrId(s) => s
    }
  }

  function Decimal(n: nat): string {
    var digit := [("0123456789")[n % 10]];
    if n < 10 then digit else Decimal(n / 10) + digit
  }

  type Batch = seq<TrialId>

  /** What the rest of the world answers in one iteration. An engine that
      stops the plan in an acquisition or a recording throws there. */
  datatype Answers = Answers(
    suggested: Option<Batch>,
    acquisition: Acquisition,
    evaluated: Option<Batch>,
    ingestOk: bool,
    stop: bool,
    readOk: bool,
    checkpointOk: bool)

  datatype Acquisition = Acquired | NoPlan | Thrown | NoUid

  datatype Call =
    | Suggest(i: nat, n: nat)
    | RegisterFailures(i: nat, batch: Batch)
    | Ingest(i: nat, outcomes: Batch, ok: bool)
    | Record(i: nat, suggestions: Batch, outcomes: Batch)
    | Checkpoint(i: nat)
    | EngineCheckpoint(i: nat)

  datatype End =
    | Going
    | Done
    | NeedsStopping
    | SuggestFailed
    | AcquisitionFailed
    | EvaluationFailed
    | InvalidOutcomes
    | IngestFailed
    | Stopped
    | ReadMismatch
    | ReadThrown
    | NotCheckpointable
    | CheckpointFailed

  /** `inRun` tells `optimize_in_run` from `optimize`. */
  datatype Config = Config(inRun: bool, nPoints: nat, interval: Option<nat>, stopping: bool, checkpointable: bool)

  // ---- The validators ----

  function Ids(batch: Batch): set<TrialId> {
    set id | id in batch
  }

  predicate UniqueIds(batch: Batch) {
    |Ids(batch)| == |batch|
  }

  predicate ValidOutcomes(outcomes: Batch, suggestions: Batch) {
    UniqueIds(outcomes) && Ids(suggestions) == Ids(outcomes)
  }

  // ---- One iteration, after the calls in `log` ----

  function AcquireAndEvaluate(cfg: Config, i: nat, batch: Batch, a: Answers, log: seq<Call>): (seq<Call>, Result<Batch, End>) {
    match a.acquisition
    case NoPlan => (log, Err(AcquisitionFailed))
    case Thrown => (log + [RegisterFailures(i, batch)], Err(AcquisitionFailed))
    case NoUid => (log, Err(AcquisitionFailed))
    case Acquired =>
      if a.evaluated.None? || (cfg.inRun && !ValidOutcomes(a.evaluated.value, batch))
      then (log + [RegisterFailures(i, batch)], Err(EvaluationFailed))
      else (log, Ok(a.evaluated.value))
  }

  function Shown(batch: Batch): set<string> {
    set id | id in batch :: id.Show()
  }

  function ReadStep(i: nat, batch: Batch, outcomes: Batch, a: Answers, log: seq<Call>): (seq<Call>, End) {
    if Shown(batch) != Shown(outcomes) then (log, ReadMismatch)
    else if !a.readOk then (log, ReadThrown)
    else (log + [Record(i, batch, outcomes)], Going)
  }

  predicate IsMultipleOf(n: nat, k: nat)
    decreases n
  {
    n == 0 || (0 < k <= n && IsMultipleOf(n - k, k))
  }

  predicate IsTimes(n: nat, q: nat, k: nat) {
    n == q * k
  }

  lemma {:induction false} QuotientOf(n: nat, k: nat) returns (q: nat)
    requires IsMultipleOf(n, k)
    ensures IsTimes(n, q, k)
  {
    if n == 0 {
      q := 0;
    } else {
      q := QuotientOf(n - k, k);
      assert (q + 1) * k == q * k + k;
      q := q + 1;
    }
  }

  lemma {:induction false} TimesIsMultiple(n: nat, q: nat, k: nat)
    requires k > 0 && IsTimes(n, q, k)
    ensures IsMultipleOf(n, k)
    decreases q
  {
    if q > 0 {
      assert q * k == (q - 1) * k + k;
      assert (q - 1) * k >= 0;
      TimesIsMultiple(n - k, q - 1, k);
    }
  }

  ghost predicate Wholly(n: nat, k: nat) {
    exists q :: IsTimes(n, q, k)
  }

  /** A whole number of intervals. */
  lemma IsMultipleOfIff(n: nat, k: nat)
    requires k > 0
    ensures IsMultipleOf(n, k) <==> Wholly(n, k)
  {
    if IsMultipleOf(n, k) {
      var q := QuotientOf(n, k);
    }
    if q :| IsTimes(n, q, k) {
      TimesIsMultiple(n, q, k);
    }
  }

  predicate Due(interval: Option<nat>, i: nat) {
    interval.Some? && interval.value > 0 && IsMultipleOf(i + 1, interval.value)
  }

  /** The optimizer is checkpointed after every `interval` iterations; an
      interval of none or of zero is never complete. */
  lemma DueIff(interval: Option<nat>, i: nat)
    ensures Due(interval, i) <==> interval.Some? && interval.value > 0 && Wholly(i + 1, interval.value)
  {
    if interval.Some? && interval.value > 0 {
      IsMultipleOfIff(i + 1, interval.value);
    }
  }

  function MaybeCheckpoint(cfg: Config, i: nat, a: Answers, log: seq<Call>): (seq<Call>, End) {
    if !Due(cfg.interval, i) then (log, Going)
    else if !cfg.checkpointable then (log, NotCheckpointable)
    else (log + [Checkpoint(i)], if a.checkpointOk then Going else CheckpointFailed)
  }

  /** After a successful ingest. */
  function FinishIteration(cfg: Config, i: nat, batch: Batch, outcomes: Batch, a: Answers, log: seq<Call>): (seq<Call>, End) {
    if !cfg.inRun && cfg.stopping && a.stop then (log, Stopped)
    else
      var (read, readEnd) := ReadStep(i, batch, outcomes, a, log);
      if readEnd != Going then (read, readEnd)
      else if cfg.inRun && cfg.stopping && a.stop then (read, Stopped)
      else
        var (saved, end) := MaybeCheckpoint(cfg, i, a, read);
        if end != Going || cfg.inRun then (saved, end) else (saved + [EngineCheckpoint(i)], end)
  }

  function IngestOutcomes(cfg: Config, i: nat, batch: Batch, outcomes: Batch, a: Answers, log: seq<Call>): (seq<Call>, End) {
    if !cfg.inRun && !ValidOutcomes(outcomes, batch) then (log, InvalidOutcomes)
    else
      var ingested := log + [Ingest(i, outcomes, a.ingestOk)];
      if !a.ingestOk then (ingested, IngestFailed) else FinishIteration(cfg, i, batch, outcomes, a, ingested)
  }

  function Iteration(cfg: Config, i: nat, a: Answers, log: seq<Call>): (seq<Call>, End) {
    var asked := log + [Suggest(i, if cfg.nPoints > 1 then cfg.nPoints else 1)];
    if a.suggested.None? || !UniqueIds(a.suggested.value) then (asked, SuggestFailed)
    else
      var (acquired, r) := AcquireAndEvaluate(cfg, i, a.suggested.value, a, asked);
      if r.Err? then (acquired, r.error) else IngestOutcomes(cfg, i, a.suggested.value, r.value, a, acquired)
  }

  // ---- The loops ----

  /** From iteration `i` on; `Going` when the answers run out. */
  function Loop(cfg: Config, iterations: Option<nat>, script: seq<Answers>, i: nat, log: seq<Call>): (seq<Call>, End)
    requires i <= |script|
    decreases |script| - i
  {
    if iterations.Some? && i >= iterations.value then (log, Done)
    else if i == |script| then (log, Going)
    else
      var (calls, end) := Iteration(cfg, i, script[i], log);
      if end != Going then (calls, end) else Loop(cfg, iterations, script, i + 1, calls)
  }

  function Run(cfg: Config, iterations: Option<nat>, script: seq<Answers>): (seq<Call>, End) {
    if !cfg.inRun && iterations.None? && !cfg.stopping then (NoCalls(), NeedsStopping)
    else Loop(cfg, iterations, script, 0, NoCalls())
  }

  function NoCalls(): seq<Call> {
    []
  }

  method Optimize(cfg: Config, iterations: Option<nat>, script: seq<Answers>) returns (log: seq<Call>, end: End)
    requires !cfg.inRun
    ensures (log, end) == Run(cfg, iterations, script)
  {
    log := [];
    if iterations.None? && !cfg.stopping {
      return NoCalls(), NeedsStopping;
    }
    var i := 0;
    while (iterations.None? || i < iterations.value) && i < |script|
      invariant 0 <= i <= |script|
      invariant Loop(cfg, iterations, script, i, log) == Run(cfg, iterations, script)
    {
      var (calls, stepEnd) := Iteration(cfg, i, script[i], log);
      log := calls;
      if stepEnd != Going {
        return log, stepEnd;
      }
      i := i + 1;
    }
    end := if iterations.Some? && i >= iterations.value then Done else Going;
  }

  method OptimizeInRun(cfg: Config, iterations: nat, script: seq<Answers>) returns (log: seq<Call>, end: End)
    requires cfg.inRun
    ensures (log, end) == Run(cfg, Some(iterations), script)
  {
    log := [];
    var i := 0;
    while i < iterations && i < |script|
      invariant 0 <= i <= |script|
      invariant Loop(cfg, Some(iterations), script, i, log) == Run(cfg, Some(iterations), script)
    {
      var (calls, stepEnd) := Iteration(cfg, i, script[i], log);
      log := calls;
      if stepEnd != Going {
        return log, stepEnd;
      }
      i := i + 1;
    }
    end := if i >= iterations then Done else Going;
  }

  // ---- Validated ids ----

  lemma {:induction false} IdsAtMost(batch: Batch)
    ensures |Ids(batch)| <= |batch|
  {
    if batch != [] {
      IdsAtMost(batch[1..]);
      assert Ids(batch) == Ids(batch[1..]) + {batch[0]};
    }
  }

  ghost predicate Distinct(batch: Batch) {
    forall j, k :: 0 <= j < k < |batch| ==> batch[j] != batch[k]
  }

  lemma DistinctHead(batch: Batch)
    requires batch != []
    ensures Distinct(batch) <==> Distinct(batch[1..]) && batch[0] !in batch[1..]
  {
    var rest := batch[1..];
    assert forall k :: 0 <= k < |rest| ==> rest[k] == batch[k + 1];
    if Distinct(rest) && batch[0] !in rest {
      forall j, k | 0 <= j < k < |batch| ensures batch[j] != batch[k] {
        assert batch[k] == rest[k - 1];
        assert j > 0 ==> batch[j] == rest[j - 1];
      }
    }
  }

  /** Counting ids finds exactly the repeated ones. */
  lemma {:induction false} UniqueIff(batch: Batch)
    ensures UniqueIds(batch) <==> Distinct(batch)
  {
    if batch != [] {
      DistinctHead(batch);
      UniqueIff(batch[1..]);
      IdsAtMost(batch[1..]);
      assert Ids(batch) == Ids(batch[1..]) + {batch[0]};
      assert batch[0] in batch[1..] ==> Ids(batch) == Ids(batch[1..]);
    }
  }

  function Count(batch: Batch, id: TrialId): nat {
    if batch == [] then 0 else (if batch[0] == id then 1 else 0) + Count(batch[1..], id)
  }

  lemma {:induction false} CountOfUnique(batch: Batch, id: TrialId)
    requires UniqueIds(batch)
    ensures Count(batch, id) == if id in batch then 1 else 0
  {
    if batch != [] {
      UniqueIff(batch);
      DistinctHead(batch);
      var rest := batch[1..];
      UniqueIff(rest);
      CountOfUnique(rest, id);
      assert id in batch <==> id == batch[0] || id in rest;
      assert batch[0] !in rest;
    }
  }

  /** What passes the validators carries exactly the suggested ids, once each. */
  lemma ValidOutcomesMatch(suggestions: Batch, outcomes: Batch, id: TrialId)
    requires UniqueIds(suggestions) && ValidOutcomes(outcomes, suggestions)
    ensures Count(outcomes, id) == Count(suggestions, id) <= 1
  {
    CountOfUnique(suggestions, id);
    CountOfUnique(outcomes, id);
    assert id in Ids(suggestions) <==> id in Ids(outcomes);
  }

  /** Outcomes are valid exactly when they carry each suggested id once and no
      other. */
  lemma ValidOutcomesIff(suggestions: Batch, outcomes: Batch)
    ensures ValidOutcomes(outcomes, suggestions) <==>
              forall id :: Count(outcomes, id) == if id in suggestions then 1 else 0
  {
    if ValidOutcomes(outcomes, suggestions) {
      forall id ensures Count(outcomes, id) == if id in suggestions then 1 else 0 {
        CountOfUnique(outcomes, id);
        assert id in Ids(suggestions) <==> id in Ids(outcomes);
      }
    }
    if forall id :: Count(outcomes, id) == if id in suggestions then 1 else 0 {
      forall id ensures Count(outcomes, id) <= 1 && (id in Ids(outcomes) <==> id in Ids(suggestions)) {
        CountedIsIn(outcomes, id);
      }
      CountsOnce(outcomes);
    }
  }

  lemma {:induction false} CountedIsIn(batch: Batch, id: TrialId)
    ensures Count(batch, id) > 0 <==> id in batch
  {
    if batch != [] {
      CountedIsIn(batch[1..], id);
      assert id in batch <==> id == batch[0] || id in batch[1..];
    }
  }

  lemma {:induction false} CountsOnce(batch: Batch)
    requires forall id :: Count(batch, id) <= 1
    ensures UniqueIds(batch)
  {
    if batch != [] {
      var rest := batch[1..];
      forall id ensures Count(rest, id) <= 1 {
        assert Count(batch, id) <= 1;
      }
      CountsOnce(rest);
      assert Count(batch, batch[0]) <= 1;
      CountedIsIn(rest, batch[0]);
      assert Ids(batch) == Ids(rest) + {batch[0]};
    }
  }

  lemma ShownTogether(a: Batch, b: Batch)
    requires Ids(a) == Ids(b)
    ensures Shown(a) == Shown(b)
  {
    forall s | s in Shown(a) ensures s in Shown(b) {
      var id :| id in a && id.Show() == s;
      assert id in Ids(b);
    }
    forall s | s in Shown(b) ensures s in Shown(a) {
      var id :| id in b && id.Show() == s;
      assert id in Ids(a);
    }
  }

  // ---- Ids recorded as one ----

  lemma DigitsDiffer(a: nat, b: nat)
    requires a < 10 && b < 10 && "0123456789"[a] == "0123456789"[b]
    ensures a == b
  {
  }

  lemma {:induction false} DecimalStarts(n: nat)
    ensures |Decimal(n)| >= 1 && Decimal(n)[0] != '-'
    ensures n >= 10 ==> |Decimal(n)| >= 2
  {
    if n >= 10 {
      DecimalStarts(n / 10);
    }
  }

  lemma {:induction false} DecimalInjective(a: nat, b: nat)
    requires Decimal(a) == Decimal(b)
    ensures a == b
  {
    DecimalStarts(a);
    DecimalStarts(b);
    DecimalEnds(a);
    DecimalEnds(b);
    DigitsDiffer(a % 10, b % 10);
    if a >= 10 {
      DecimalInjective(a / 10, b / 10);
    }
  }

  /** The last digit, and those before it. */
  lemma DecimalEnds(n: nat)
    ensures |Decimal(n)| >= 1 && Decimal(n)[|Decimal(n)| - 1] == "0123456789"[n % 10]
    ensures |Decimal(n)| == 1 ==> n < 10
    ensures n >= 10 ==> Decimal(n)[..|Decimal(n)| - 1] == Decimal(n / 10)
  {
    DecimalStarts(n);
  }

  /** Only a number and the text that spells it are recorded alike. */
  lemma ShownAlikeIs(a: TrialId, b: TrialId)
    requires a != b && a.Show() == b.Show()
    ensures (a.IntId? && b == StrId(a.Show())) || (b.IntId? && a == StrId(b.Show()))
  {
    if a.IntId? && b.IntId? {
      DecimalStarts(if a.value < 0 then -a.value else a.value);
      DecimalStarts(if b.value < 0 then -b.value else b.value);
      if a.value < 0 && b.value < 0 {
        assert a.Show()[1..] == Decimal(-a.value) && b.Show()[1..] == Decimal(-b.value);
        DecimalInjective(-a.value, -b.value);
      } else if a.value >= 0 && b.value >= 0 {
        DecimalInjective(a.value, b.value);
      }
    }
  }

  /** What the digits read, in base ten. */
  function Read(s: string): int {
    if s == "" then 0 else 10 * Read(s[..|s| - 1]) + (s[|s| - 1] as int - '0' as int)
  }

  ghost predicate Digits(s: string) {
    s != "" && (forall k :: 0 <= k < |s| ==> '0' <= s[k] <= '9') && (|s| > 1 ==> s[0] != '0')
  }

  lemma {:induction false} DecimalReads(n: nat)
    ensures Read(Decimal(n)) == n && Digits(Decimal(n))
    ensures n > 0 ==> Decimal(n)[0] != '0'
  {
    var digit := ("0123456789")[n % 10];
    assert digit as int == '0' as int + n % 10;
    if n < 10 {
      assert Decimal(n)[..0] == "";
    } else {
      DecimalReads(n / 10);
      var before := Decimal(n / 10);
      assert Decimal(n) == before + [digit];
      assert Decimal(n)[..|before|] == before;
    }
  }

  /** A number shows as its decimal digits, after a minus if it is negative; a
      text as it is. */
  lemma ShowReads(id: TrialId)
    ensures id.StrId? ==> id.Show() == id.text
    ensures id.IntId? && id.value >= 0 ==> Digits(id.Show()) && Read(id.Show()) == id.value
    ensures id.IntId? && id.value < 0 ==>
              |id.Show()| > 1 && id.Show()[0] == '-' && Digits(id.Show()[1..]) && Read(id.Show()[1..]) == -id.value
  {
    if id.IntId? {
      DecimalReads(if id.value < 0 then -id.value else id.value);
    }
  }

  ghost predicate SameRecord(batch: Batch, a: TrialId, b: TrialId) {
    a in batch && b in batch && a != b && a.Show() == b.Show()
  }

  lemma {:induction false} ShownAtMost(batch: Batch)
    ensures |Shown(batch)| <= |batch|
  {
    if batch != [] {
      ShownAtMost(batch[1..]);
      ShownHead(batch);
    }
  }

  lemma ShownHead(batch: Batch)
    requires batch != []
    ensures Shown(batch) == Shown(batch[1..]) + {batch[0].Show()}
  {
    assert forall id :: id in batch <==> id == batch[0] || id in batch[1..];
  }

  lemma {:induction false} ShownCount(batch: Batch)
    requires Distinct(batch)
    ensures |Shown(batch)| == |batch| <==> forall a, b :: !SameRecord(batch, a, b)
  {
    if batch != [] {
      var rest := batch[1..];
      DistinctHead(batch);
      ShownHead(batch);
      ShownAtMost(rest);
      ShownCount(rest);
      forall a, b ensures SameRecord(rest, a, b) ==> SameRecord(batch, a, b) {
      }
      if batch[0].Show() in Shown(rest) {
        assert Shown(batch) == Shown(rest);
        var b :| b in rest && b.Show() == batch[0].Show();
        assert SameRecord(batch, batch[0], b);
      } else {
        forall a, b ensures SameRecord(batch, a, b) ==> SameRecord(rest, a, b) {
          assert forall id :: id in rest ==> id.Show() in Shown(rest);
        }
      }
    }
  }

  /** Trials told apart by the validators are recorded apart, but for a number
      and the text that spells it. */
  lemma RecordedApartIff(batch: Batch)
    requires UniqueIds(batch)
    ensures |Shown(batch)| == |batch| <==> forall v :: IntId(v) in batch ==> StrId(IntId(v).Show()) !in batch
  {
    UniqueIff(batch);
    ShownCount(batch);
    if v :| IntId(v) in batch && StrId(IntId(v).Show()) in batch {
      assert SameRecord(batch, IntId(v), StrId(IntId(v).Show()));
    }
    if a, b :| SameRecord(batch, a, b) {
      ShownAlikeIs(a, b);
    }
  }

  // ---- What each iteration asks and records ----

  /** How many events and successful ingests there are, and how often the
      optimizer was checkpointed at iteration `m`. */
  datatype Tally = Tally(records: nat, ingests: nat, saves: nat) {
    function Plus(t: Tally): Tally {
      Tally(records + t.records, ingests + t.ingests, saves + t.saves)
    }
  }

  function TallyOne(c: Call, m: nat): Tally {
    match c
    case Record(_, _, _) => Tally(1, 0, 0)
    case Ingest(_, _, ok) => Tally(0, if ok then 1 else 0, 0)
    case Checkpoint(i) => Tally(0, 0, if i == m then 1 else 0)
    case _ => Tally(0, 0, 0)
  }

  function TallyTo(log: seq<Call>, n: nat, m: nat): Tally
    requires n <= |log|
  {
    if n == 0 then Tally(0, 0, 0) else TallyTo(log, n - 1, m).Plus(TallyOne(log[n - 1], m))
  }

  function TallyOf(log: seq<Call>, m: nat): Tally {
    TallyTo(log, |log|, m)
  }

  lemma {:induction false} TallyOfPrefix(log: seq<Call>, c: Call, n: nat, m: nat)
    requires n <= |log|
    ensures TallyTo(log + [c], n, m) == TallyTo(log, n, m)
  {
    if n > 0 {
      TallyOfPrefix(log, c, n - 1, m);
    }
  }

  lemma TallyAppend(log: seq<Call>, c: Call, m: nat)
    ensures TallyOf(log + [c], m) == TallyOf(log, m).Plus(TallyOne(c, m))
  {
    TallyOfPrefix(log, c, |log|, m);
  }

  /** The tally of iteration `i` by how it ended. */
  function Expected(cfg: Config, i: nat, end: End, m: nat): Tally {
    match end
    case Going => Tally(1, 1, if m == i && Due(cfg.interval, i) then 1 else 0)
    case CheckpointFailed => Tally(1, 1, if m == i then 1 else 0)
    case NotCheckpointable => Tally(1, 1, 0)
    case Stopped => Tally(if cfg.inRun then 1 else 0, 1, 0)
    case ReadThrown => Tally(0, 1, 0)
    case ReadMismatch => Tally(0, 1, 0)
    case _ => Tally(0, 0, 0)
  }

  lemma SavedTally(cfg: Config, i: nat, a: Answers, log: seq<Call>, m: nat)
    ensures var (saved, end) := MaybeCheckpoint(cfg, i, a, log);
            TallyOf(saved, m).Plus(Tally(1, 1, 0)) == TallyOf(log, m).Plus(Expected(cfg, i, end, m))
  {
    var (saved, end) := MaybeCheckpoint(cfg, i, a, log);
    if Due(cfg.interval, i) && cfg.checkpointable {
      TallyAppend(log, Checkpoint(i), m);
      assert Expected(cfg, i, end, m) == Tally(1, 1, if m == i then 1 else 0);
    } else {
      assert saved == log && Expected(cfg, i, end, m) == Tally(1, 1, 0);
    }
  }

  lemma ReadTally(i: nat, batch: Batch, outcomes: Batch, a: Answers, log: seq<Call>, m: nat)
    ensures var (read, end) := ReadStep(i, batch, outcomes, a, log);
            TallyOf(read, m) == TallyOf(log, m).Plus(Tally(if end == Going then 1 else 0, 0, 0))
  {
    TallyAppend(log, Record(i, batch, outcomes), m);
  }

  lemma FinishTally(cfg: Config, i: nat, batch: Batch, outcomes: Batch, a: Answers, log: seq<Call>, m: nat)
    ensures var (finished, end) := FinishIteration(cfg, i, batch, outcomes, a, log);
            TallyOf(finished, m).Plus(Tally(0, 1, 0)) == TallyOf(log, m).Plus(Expected(cfg, i, end, m))
  {
    var (finished, end) := FinishIteration(cfg, i, batch, outcomes, a, log);
    var (read, readEnd) := ReadStep(i, batch, outcomes, a, log);
    ReadTally(i, batch, outcomes, a, log, m);
    if !cfg.inRun && cfg.stopping && a.stop {
      assert finished == log;
    } else if readEnd != Going || (cfg.stopping && a.stop) {
      assert finished == read;
    } else {
      var saved := MaybeCheckpoint(cfg, i, a, read).0;
      SavedTally(cfg, i, a, read, m);
      TallyAppend(saved, EngineCheckpoint(i), m);
      assert finished == saved || finished == saved + [EngineCheckpoint(i)];
    }
  }

  lemma IngestTally(cfg: Config, i: nat, batch: Batch, outcomes: Batch, a: Answers, log: seq<Call>, m: nat)
    ensures TallyOf(IngestOutcomes(cfg, i, batch, outcomes, a, log).0, m)
            == TallyOf(log, m).Plus(Expected(cfg, i, IngestOutcomes(cfg, i, batch, outcomes, a, log).1, m))
  {
    var ingest := Ingest(i, outcomes, a.ingestOk);
    TallyAppend(log, ingest, m);
    FinishTally(cfg, i, batch, outcomes, a, log + [ingest], m);
    EndsAfterIngest(cfg, i, batch, outcomes, a, log + [ingest]);
  }

  lemma IterationTally(cfg: Config, i: nat, a: Answers, log: seq<Call>, m: nat)
    ensures TallyOf(Iteration(cfg, i, a, log).0, m)
            == TallyOf(log, m).Plus(Expected(cfg, i, Iteration(cfg, i, a, log).1, m))
  {
    var ask := Suggest(i, if cfg.nPoints > 1 then cfg.nPoints else 1);
    TallyAppend(log, ask, m);
    if a.suggested.Some? && UniqueIds(a.suggested.value) {
      var batch := a.suggested.value;
      TallyAppend(log + [ask], RegisterFailures(i, batch), m);
      var (acquired, r) := AcquireAndEvaluate(cfg, i, batch, a, log + [ask]);
      if r.Ok? {
        IngestTally(cfg, i, batch, r.value, a, acquired, m);
      }
    }
  }

  predicate AtCheckpoint(end: End) {
    end == CheckpointFailed || end == NotCheckpointable
  }

  lemma EndsAfterIngest(cfg: Config, i: nat, batch: Batch, outcomes: Batch, a: Answers, log: seq<Call>)
    ensures var end := FinishIteration(cfg, i, batch, outcomes, a, log).1;
            end == Going || AtCheckpoint(end) || end == Stopped || end == ReadThrown || end == ReadMismatch
  {
  }

  /** Only a due checkpoint can end an iteration that way. */
  lemma IterationEnds(cfg: Config, i: nat, a: Answers, log: seq<Call>)
    ensures AtCheckpoint(Iteration(cfg, i, a, log).1) ==> Due(cfg.interval, i)
    ensures Iteration(cfg, i, a, log).1 != Done && Iteration(cfg, i, a, log).1 != NeedsStopping
  {
  }

  // ---- Whole runs ----

  /** Outcomes for exactly the ids suggested in that iteration. */
  ghost predicate Exact(script: seq<Answers>, d: Call)
    requires d.Ingest?
  {
    && d.i < |script| && script[d.i].suggested.Some?
    && UniqueIds(script[d.i].suggested.value) && ValidOutcomes(d.outcomes, script[d.i].suggested.value)
  }

  /** The batch suggested in that iteration. */
  ghost predicate Suggested(script: seq<Answers>, c: Call)
    requires c.RegisterFailures?
  {
    c.i < |script| && script[c.i].suggested == Some(c.batch)
  }

  /** Not both `c` and `d` were made in one iteration, and each is exact. */
  ghost predicate Sound(script: seq<Answers>, log: seq<Call>, c: Call, d: Call)
    requires c.RegisterFailures? && d.Ingest?
  {
    !(c in log && d in log && c.i == d.i) && (c in log ==> Suggested(script, c)) && (d in log ==> Exact(script, d))
  }

  ghost predicate Below(log: seq<Call>, i: nat, c: Call) {
    c in log ==> c.i < i
  }

  /** What comes after the ingest neither ingests nor registers failures. */
  lemma FinishAdds(cfg: Config, i: nat, batch: Batch, outcomes: Batch, a: Answers, log: seq<Call>, c: Call)
    requires c.RegisterFailures? || c.Ingest?
    ensures c in FinishIteration(cfg, i, batch, outcomes, a, log).0 <==> c in log
  {
  }

  lemma IngestAdds(cfg: Config, i: nat, batch: Batch, outcomes: Batch, a: Answers, log: seq<Call>, c: Call)
    requires c.RegisterFailures? || c.Ingest?
    ensures c in IngestOutcomes(cfg, i, batch, outcomes, a, log).0 <==>
              c in log || (c == Ingest(i, outcomes, a.ingestOk) && (cfg.inRun || ValidOutcomes(outcomes, batch)))
  {
    FinishAdds(cfg, i, batch, outcomes, a, log + [Ingest(i, outcomes, a.ingestOk)], c);
  }

  lemma IterationSound(cfg: Config, i: nat, script: seq<Answers>, log: seq<Call>, c: Call, d: Call)
    requires c.RegisterFailures? && d.Ingest? && i < |script|
    requires Sound(script, log, c, d) && Below(log, i, c) && Below(log, i, d)
    ensures var log' := Iteration(cfg, i, script[i], log).0;
            Sound(script, log', c, d) && Below(log', i + 1, c) && Below(log', i + 1, d)
  {
    var a := script[i];
    var asked := log + [Suggest(i, if cfg.nPoints > 1 then cfg.nPoints else 1)];
    if a.suggested.Some? && UniqueIds(a.suggested.value) {
      var (acquired, r) := AcquireAndEvaluate(cfg, i, a.suggested.value, a, asked);
      if r.Ok? {
        IngestAdds(cfg, i, a.suggested.value, r.value, a, acquired, c);
        IngestAdds(cfg, i, a.suggested.value, r.value, a, acquired, d);
      }
    }
  }

  lemma {:induction false} LoopSound(cfg: Config, iterations: Option<nat>, script: seq<Answers>, i: nat, log: seq<Call>, c: Call, d: Call)
    requires c.RegisterFailures? && d.Ingest? && i <= |script|
    requires Sound(script, log, c, d) && Below(log, i, c) && Below(log, i, d)
    ensures Sound(script, Loop(cfg, iterations, script, i, log).0, c, d)
    decreases |script| - i
  {
    if !(iterations.Some? && i >= iterations.value) && i < |script| {
      IterationSound(cfg, i, script, log, c, d);
      var (calls, end) := Iteration(cfg, i, script[i], log);
      if end == Going {
        LoopSound(cfg, iterations, script, i + 1, calls, c, d);
      }
    }
  }

  /** In every run: no batch is both ingested and registered as failed, and
      every ingest carries exactly the suggested ids, once each. */
  lemma IngestsAreExact(cfg: Config, iterations: Option<nat>, script: seq<Answers>, c: Call, d: Call, id: TrialId)
    requires c.RegisterFailures? && d.Ingest?
    ensures var log := Run(cfg, iterations, script).0;
            && (c in log && d in log ==> c.i != d.i)
            && (c in log ==> c.i < |script| && script[c.i].suggested == Some(c.batch))
            && (d in log ==>
                  && d.i < |script| && script[d.i].suggested.Some?
                  && Count(d.outcomes, id) == Count(script[d.i].suggested.value, id) <= 1)
  {
    if cfg.inRun || iterations.Some? || cfg.stopping {
      LoopSound(cfg, iterations, script, 0, NoCalls(), c, d);
      if d in Run(cfg, iterations, script).0 {
        ValidOutcomesMatch(script[d.i].suggested.value, d.outcomes, id);
      }
    }
  }

  // ---- Which calls are made, and in what order ----

  /** The batch was suggested, and each id once. */
  predicate Suggests(a: Answers) {
    a.suggested.Some? && UniqueIds(a.suggested.value)
  }

  /** It was acquired and evaluated, each id again once. */
  predicate Evaluates(a: Answers) {
    Suggests(a) && a.acquisition.Acquired? && a.evaluated.Some? && ValidOutcomes(a.evaluated.value, a.suggested.value)
  }

  /** The acquisition threw, or what it acquired could not be evaluated or, in
      a run, came out wrong. */
  predicate FailsAfterSuggesting(cfg: Config, a: Answers) {
    Suggests(a) && (a.acquisition.Thrown? || (a.acquisition.Acquired? &&
      (a.evaluated.None? || (cfg.inRun && !ValidOutcomes(a.evaluated.value, a.suggested.value)))))
  }

  predicate Stops(cfg: Config, a: Answers) {
    cfg.stopping && a.stop
  }

  /** An event is recorded: out of a run, only where the loop goes on. */
  predicate Records(cfg: Config, a: Answers) {
    Evaluates(a) && a.ingestOk && a.readOk && (cfg.inRun || !Stops(cfg, a))
  }

  /** Iteration `i` comes to where the optimizer is checkpointed if it is due. */
  predicate Passes(cfg: Config, a: Answers) {
    Records(cfg, a) && !Stops(cfg, a)
  }

  predicate Completes(cfg: Config, i: nat, a: Answers) {
    Passes(cfg, a) && (Due(cfg.interval, i) ==> cfg.checkpointable && a.checkpointOk)
  }

  /** The call is one that iteration `i` makes, if it is reached. */
  predicate Makes(cfg: Config, i: nat, a: Answers, c: Call) {
    c.i == i &&
    match c
    case Suggest(_, n) => n == if cfg.nPoints > 1 then cfg.nPoints else 1
    case RegisterFailures(_, batch) => FailsAfterSuggesting(cfg, a) && batch == a.suggested.value
    case Ingest(_, outcomes, ok) => Evaluates(a) && outcomes == a.evaluated.value && ok == a.ingestOk
    case Record(_, suggestions, outcomes) =>
      Records(cfg, a) && suggestions == a.suggested.value && outcomes == a.evaluated.value
    case Checkpoint(_) => Passes(cfg, a) && Due(cfg.interval, i) && cfg.checkpointable
    case EngineCheckpoint(_) => Completes(cfg, i, a) && !cfg.inRun
  }

  /** All iterations before `i` completed, and there is an `i`-th. */
  ghost predicate Reaches(cfg: Config, iterations: Option<nat>, script: seq<Answers>, i: nat) {
    && (cfg.inRun || iterations.Some? || cfg.stopping)
    && i < |script| && (iterations.Some? ==> i < iterations.value)
    && forall j :: 0 <= j < i ==> Completes(cfg, j, script[j])
  }

  /** Where a call comes in its iteration. */
  function Place(c: Call): nat {
    match c
    case Suggest(_, _) => 0
    case RegisterFailures(_, _) => 1
    case Ingest(_, _, _) => 2
    case Record(_, _, _) => 3
    case Checkpoint(_) => 4
    case EngineCheckpoint(_) => 5
  }

  predicate Precedes(c: Call, d: Call) {
    c.i < d.i || (c.i == d.i && Place(c) < Place(d))
  }

  ghost predicate InOrder(log: seq<Call>) {
    forall j, k :: 0 <= j < k < |log| ==> Precedes(log[j], log[k])
  }

  /** In order, and all before place `p` of iteration `i`. */
  ghost predicate UpTo(log: seq<Call>, i: nat, p: nat) {
    InOrder(log) && forall c :: c in log ==> c.i < i || (c.i == i && Place(c) < p)
  }

  lemma UpToSnoc(log: seq<Call>, c: Call)
    requires UpTo(log, c.i, Place(c))
    ensures UpTo(log + [c], c.i, Place(c) + 1)
    ensures forall d :: d in log + [c] <==> d in log || d == c
  {
    forall j | 0 <= j < |log| ensures Precedes(log[j], c) {
      assert log[j] in log;
    }
  }

  lemma CheckpointMakes(cfg: Config, i: nat, a: Answers, log: seq<Call>, d: Call)
    requires UpTo(log, i, 4)
    ensures var (saved, end) := MaybeCheckpoint(cfg, i, a, log);
            && UpTo(saved, i, 5)
            && (d in saved <==> d in log || (d == Checkpoint(i) && Due(cfg.interval, i) && cfg.checkpointable))
            && (end == Going <==> (Due(cfg.interval, i) ==> cfg.checkpointable && a.checkpointOk))
  {
    UpToSnoc(log, Checkpoint(i));
  }

  lemma FinishMakes(cfg: Config, i: nat, batch: Batch, outcomes: Batch, a: Answers, log: seq<Call>, d: Call)
    requires UpTo(log, i, 3) && Shown(batch) == Shown(outcomes)
    requires Evaluates(a) && a.ingestOk && batch == a.suggested.value && outcomes == a.evaluated.value
    ensures var (finished, end) := FinishIteration(cfg, i, batch, outcomes, a, log);
            && UpTo(finished, i + 1, 0)
            && (d in finished <==> d in log || (Place(d) >= 3 && Makes(cfg, i, a, d)))
            && (end == Going <==> Completes(cfg, i, a))
  {
    if Records(cfg, a) {
      UpToSnoc(log, Record(i, batch, outcomes));
      if Passes(cfg, a) {
        var read := log + [Record(i, batch, outcomes)];
        CheckpointMakes(cfg, i, a, read, d);
        UpToSnoc(MaybeCheckpoint(cfg, i, a, read).0, EngineCheckpoint(i));
      }
    }
  }

  lemma IngestMakes(cfg: Config, i: nat, outcomes: Batch, a: Answers, log: seq<Call>, d: Call)
    requires UpTo(log, i, 2) && Suggests(a) && a.acquisition.Acquired? && a.evaluated == Some(outcomes)
    requires cfg.inRun ==> ValidOutcomes(outcomes, a.suggested.value)
    ensures var (ingested, end) := IngestOutcomes(cfg, i, a.suggested.value, outcomes, a, log);
            && UpTo(ingested, i + 1, 0)
            && (d in ingested <==> d in log || (Place(d) >= 2 && Makes(cfg, i, a, d)))
            && (end == Going <==> Completes(cfg, i, a))
  {
    if Evaluates(a) {
      UpToSnoc(log, Ingest(i, outcomes, a.ingestOk));
      if a.ingestOk {
        ShownTogether(a.suggested.value, outcomes);
        FinishMakes(cfg, i, a.suggested.value, outcomes, a, log + [Ingest(i, outcomes, a.ingestOk)], d);
      }
    }
  }

  lemma AcquireMakes(cfg: Config, i: nat, a: Answers, log: seq<Call>, d: Call)
    requires UpTo(log, i, 1) && Suggests(a)
    ensures var (acquired, r) := AcquireAndEvaluate(cfg, i, a.suggested.value, a, log);
            && UpTo(acquired, i, 2)
            && (d in acquired <==> d in log || (Place(d) == 1 && Makes(cfg, i, a, d)))
            && (r.Ok? ==>
                  && a.acquisition.Acquired? && a.evaluated == Some(r.value)
                  && (cfg.inRun ==> ValidOutcomes(r.value, a.suggested.value)))
            && (r.Err? ==> r.error != Going && (a.acquisition.Acquired? && a.evaluated.Some? ==>
                  cfg.inRun && !ValidOutcomes(a.evaluated.value, a.suggested.value)))
  {
    UpToSnoc(log, RegisterFailures(i, a.suggested.value));
  }

  /** One iteration makes exactly its calls, in their order. */
  lemma IterationMakes(cfg: Config, i: nat, a: Answers, log: seq<Call>, d: Call)
    requires UpTo(log, i, 0)
    ensures var (calls, end) := Iteration(cfg, i, a, log);
            && UpTo(calls, i + 1, 0)
            && (d in calls <==> d in log || Makes(cfg, i, a, d))
            && (end == Going <==> Completes(cfg, i, a))
  {
    var ask := Suggest(i, if cfg.nPoints > 1 then cfg.nPoints else 1);
    UpToSnoc(log, ask);
    if Suggests(a) {
      var asked := log + [ask];
      AcquireMakes(cfg, i, a, asked, d);
      var (acquired, r) := AcquireAndEvaluate(cfg, i, a.suggested.value, a, asked);
      if r.Ok? {
        IngestMakes(cfg, i, r.value, a, acquired, d);
      }
    }
  }

  ghost predicate AllComplete(cfg: Config, script: seq<Answers>, n: nat) {
    n <= |script| && forall j :: 0 <= j < n ==> Completes(cfg, j, script[j])
  }

  lemma ReachesNext(cfg: Config, iterations: Option<nat>, script: seq<Answers>, i: nat)
    requires AllComplete(cfg, script, i) && i < |script| && (cfg.inRun || iterations.Some? || cfg.stopping)
    requires iterations.Some? ==> i < iterations.value
    ensures Reaches(cfg, iterations, script, i)
    ensures Completes(cfg, i, script[i]) ==> AllComplete(cfg, script, i + 1)
    ensures !Completes(cfg, i, script[i]) ==> forall j :: i < j ==> !Reaches(cfg, iterations, script, j)
  {
  }

  ghost predicate MadeFrom(cfg: Config, iterations: Option<nat>, script: seq<Answers>, i: nat, d: Call) {
    i <= d.i && Reaches(cfg, iterations, script, d.i) && Makes(cfg, d.i, script[d.i], d)
  }

  lemma StepMakes(cfg: Config, iterations: Option<nat>, script: seq<Answers>, i: nat, log: seq<Call>, d: Call)
    requires UpTo(log, i, 0) && (cfg.inRun || iterations.Some? || cfg.stopping) && AllComplete(cfg, script, i)
    requires i < |script| && (iterations.Some? ==> i < iterations.value)
    ensures var (calls, end) := Iteration(cfg, i, script[i], log);
            && UpTo(calls, i + 1, 0)
            && (end == Going ==> AllComplete(cfg, script, i + 1))
            && (if end == Going then
                  (d in calls || MadeFrom(cfg, iterations, script, i + 1, d))
                  <==> (d in log || MadeFrom(cfg, iterations, script, i, d))
                else d in calls <==> d in log || MadeFrom(cfg, iterations, script, i, d))
  {
    IterationMakes(cfg, i, script[i], log, d);
    ReachesNext(cfg, iterations, script, i);
  }

  lemma NoneMadeFrom(cfg: Config, iterations: Option<nat>, script: seq<Answers>, i: nat, d: Call)
    requires i >= |script| || (iterations.Some? && i >= iterations.value)
    ensures !MadeFrom(cfg, iterations, script, i, d)
  {
  }

  lemma {:induction false} LoopMakes(cfg: Config, iterations: Option<nat>, script: seq<Answers>, i: nat, log: seq<Call>, d: Call)
    requires UpTo(log, i, 0) && (cfg.inRun || iterations.Some? || cfg.stopping) && AllComplete(cfg, script, i)
    ensures d in Loop(cfg, iterations, script, i, log).0 <==> d in log || MadeFrom(cfg, iterations, script, i, d)
    decreases |script| - i
  {
    if !(iterations.Some? && i >= iterations.value) && i < |script| {
      StepMakes(cfg, iterations, script, i, log, d);
      var (calls, end) := Iteration(cfg, i, script[i], log);
      if end == Going {
        LoopMakes(cfg, iterations, script, i + 1, calls, d);
      }
    } else {
      NoneMadeFrom(cfg, iterations, script, i, d);
    }
  }

  lemma {:induction false} LoopInOrder(cfg: Config, iterations: Option<nat>, script: seq<Answers>, i: nat, log: seq<Call>)
    requires i <= |script| && UpTo(log, i, 0)
    ensures InOrder(Loop(cfg, iterations, script, i, log).0)
    decreases |script| - i
  {
    if !(iterations.Some? && i >= iterations.value) && i < |script| {
      IterationMakes(cfg, i, script[i], log, Checkpoint(i));
      var (calls, end) := Iteration(cfg, i, script[i], log);
      if end == Going {
        LoopInOrder(cfg, iterations, script, i + 1, calls);
      }
    }
  }

  /** The whole of every run, call by call: each iteration that is reached makes
      exactly the calls its answers ask for, each once, one iteration after the
      other and in the order suggest, register failures, ingest, record,
      checkpoint the optimizer, checkpoint the engine. */
  lemma CallsAreExact(cfg: Config, iterations: Option<nat>, script: seq<Answers>, d: Call)
    ensures var log := Run(cfg, iterations, script).0;
            && InOrder(log)
            && (d in log <==> Reaches(cfg, iterations, script, d.i) && Makes(cfg, d.i, script[d.i], d))
  {
    if cfg.inRun || iterations.Some? || cfg.stopping {
      LoopMakes(cfg, iterations, script, 0, NoCalls(), d);
      LoopInOrder(cfg, iterations, script, 0, NoCalls());
    }
  }

  /** What iteration `i` ends the run with, if it is reached. */
  predicate EndsBy(cfg: Config, i: nat, a: Answers, e: End) {
    match e
    case SuggestFailed => !Suggests(a)
    case AcquisitionFailed => Suggests(a) && !a.acquisition.Acquired?
    case EvaluationFailed => FailsAfterSuggesting(cfg, a) && a.acquisition.Acquired?
    case InvalidOutcomes =>
      && !cfg.inRun && Suggests(a) && a.acquisition.Acquired? && a.evaluated.Some?
      && !ValidOutcomes(a.evaluated.value, a.suggested.value)
    case IngestFailed => Evaluates(a) && !a.ingestOk
    case Stopped => Evaluates(a) && a.ingestOk && Stops(cfg, a) && (cfg.inRun ==> a.readOk)
    case ReadThrown => Evaluates(a) && a.ingestOk && !a.readOk && (cfg.inRun || !Stops(cfg, a))
    case NotCheckpointable => Passes(cfg, a) && Due(cfg.interval, i) && !cfg.checkpointable
    case CheckpointFailed => Passes(cfg, a) && Due(cfg.interval, i) && cfg.checkpointable && !a.checkpointOk
    case _ => false
  }

  lemma FinishEnds(cfg: Config, i: nat, batch: Batch, outcomes: Batch, a: Answers, log: seq<Call>)
    requires Shown(batch) == Shown(outcomes) && Evaluates(a) && a.ingestOk
    ensures var end := FinishIteration(cfg, i, batch, outcomes, a, log).1; end != Going ==> EndsBy(cfg, i, a, end)
  {
  }

  lemma IterationEndsBy(cfg: Config, i: nat, a: Answers, log: seq<Call>)
    ensures var end := Iteration(cfg, i, a, log).1; end != Going ==> EndsBy(cfg, i, a, end)
  {
    if Evaluates(a) && a.ingestOk {
      ShownTogether(a.suggested.value, a.evaluated.value);
      var asked := log + [Suggest(i, if cfg.nPoints > 1 then cfg.nPoints else 1)];
      FinishEnds(cfg, i, a.suggested.value, a.evaluated.value, a, asked + [Ingest(i, a.evaluated.value, true)]);
    }
  }

  /** How the loop ends, given that the iterations before `i` completed. */
  ghost predicate EndIs(cfg: Config, iterations: Option<nat>, script: seq<Answers>, e: End) {
    match e
    case Done => iterations.Some? && AllComplete(cfg, script, iterations.value)
    case Going => AllComplete(cfg, script, |script|) && (iterations.Some? ==> |script| < iterations.value)
    case _ => exists i: nat :: Reaches(cfg, iterations, script, i) && EndsBy(cfg, i, script[i], e)
  }

  lemma {:induction false} LoopEndsBy(cfg: Config, iterations: Option<nat>, script: seq<Answers>, i: nat, log: seq<Call>)
    requires i <= |script| && UpTo(log, i, 0) && (cfg.inRun || iterations.Some? || cfg.stopping)
    requires AllComplete(cfg, script, i) && (iterations.Some? ==> i <= iterations.value)
    ensures EndIs(cfg, iterations, script, Loop(cfg, iterations, script, i, log).1)
    decreases |script| - i
  {
    if !(iterations.Some? && i >= iterations.value) && i < |script| {
      IterationMakes(cfg, i, script[i], log, Checkpoint(i));
      IterationEndsBy(cfg, i, script[i], log);
      var (calls, end) := Iteration(cfg, i, script[i], log);
      if end == Going {
        LoopEndsBy(cfg, iterations, script, i + 1, calls);
      } else {
        assert Reaches(cfg, iterations, script, i);
      }
    }
  }

  /** Every run ends as the first iteration that does not complete says, or is
      done after the last one asked for. */
  lemma RunEndsBy(cfg: Config, iterations: Option<nat>, script: seq<Answers>)
    ensures var e := Run(cfg, iterations, script).1;
            if cfg.inRun || iterations.Some? || cfg.stopping then EndIs(cfg, iterations, script, e) else e == NeedsStopping
  {
    if cfg.inRun || iterations.Some? || cfg.stopping {
      LoopEndsBy(cfg, iterations, script, 0, NoCalls());
    }
  }

  lemma EndsByOne(cfg: Config, i: nat, a: Answers, e: End, f: End)
    requires EndsBy(cfg, i, a, e)
    ensures !Completes(cfg, i, a) && (EndsBy(cfg, i, a, f) ==> e == f)
  {
  }

  lemma Ended(cfg: Config, iterations: Option<nat>, script: seq<Answers>, e: End) returns (i: nat)
    requires EndIs(cfg, iterations, script, e) && e != Done && e != Going
    ensures Reaches(cfg, iterations, script, i) && EndsBy(cfg, i, script[i], e)
  {
    i :| Reaches(cfg, iterations, script, i) && EndsBy(cfg, i, script[i], e);
  }

  lemma ReachesOne(cfg: Config, iterations: Option<nat>, script: seq<Answers>, i: nat, j: nat)
    requires Reaches(cfg, iterations, script, i) && Reaches(cfg, iterations, script, j)
    requires !Completes(cfg, i, script[i]) && !Completes(cfg, j, script[j])
    ensures i == j
  {
  }

  /** There is but one such end. */
  lemma EndIsOne(cfg: Config, iterations: Option<nat>, script: seq<Answers>, e: End, f: End)
    requires EndIs(cfg, iterations, script, e) && EndIs(cfg, iterations, script, f)
    ensures e == f
  {
    if e != Done && e != Going {
      var i := Ended(cfg, iterations, script, e);
      EndsByOne(cfg, i, script[i], e, f);
      if f != Done && f != Going {
        var j := Ended(cfg, iterations, script, f);
        EndsByOne(cfg, j, script[j], f, e);
        ReachesOne(cfg, iterations, script, i, j);
      }
    } else if f != Done && f != Going {
      var j := Ended(cfg, iterations, script, f);
      EndsByOne(cfg, j, script[j], f, e);
    }
  }

  /** A failure is registered exactly where the acquisition threw, or what it
      acquired could not be evaluated or, in a run, came out wrong. */
  lemma FailuresAreRegistered(cfg: Config, iterations: Option<nat>, script: seq<Answers>, i: nat, batch: Batch)
    ensures var log := Run(cfg, iterations, script).0;
            && (RegisterFailures(i, batch) in log <==>
                  && Reaches(cfg, iterations, script, i) && script[i].suggested == Some(batch) && UniqueIds(batch)
                  && (script[i].acquisition.Thrown?
                      || (script[i].acquisition.Acquired? && script[i].evaluated.None?)
                      || (script[i].acquisition.Acquired? && cfg.inRun && !ValidOutcomes(script[i].evaluated.value, batch))))
            && forall j, k :: 0 <= j < k < |log| ==> log[j] != log[k]
  {
    CallsAreExact(cfg, iterations, script, RegisterFailures(i, batch));
  }

  lemma IterationMatches(cfg: Config, i: nat, a: Answers, log: seq<Call>)
    ensures Iteration(cfg, i, a, log).1 != ReadMismatch
  {
    if a.suggested.Some? && UniqueIds(a.suggested.value) {
      var asked := log + [Suggest(i, if cfg.nPoints > 1 then cfg.nPoints else 1)];
      var r := AcquireAndEvaluate(cfg, i, a.suggested.value, a, asked).1;
      if r.Ok? && ValidOutcomes(r.value, a.suggested.value) {
        ShownTogether(a.suggested.value, r.value);
      }
    }
  }

  lemma {:induction false} LoopMatches(cfg: Config, iterations: Option<nat>, script: seq<Answers>, i: nat, log: seq<Call>)
    requires i <= |script|
    ensures Loop(cfg, iterations, script, i, log).1 != ReadMismatch
    decreases |script| - i
  {
    if !(iterations.Some? && i >= iterations.value) && i < |script| {
      IterationMatches(cfg, i, script[i], log);
      var (calls, end) := Iteration(cfg, i, script[i], log);
      if end == Going {
        LoopMatches(cfg, iterations, script, i + 1, calls);
      }
    }
  }

  /** So the comparison of ids made before a step is recorded never fails. */
  lemma ReadNeverMismatches(cfg: Config, iterations: Option<nat>, script: seq<Answers>)
    ensures Run(cfg, iterations, script).1 != ReadMismatch
  {
    LoopMatches(cfg, iterations, script, 0, NoCalls());
  }

  /** How many iterations complete, from `i` on. */
  function Completed(cfg: Config, iterations: Option<nat>, script: seq<Answers>, i: nat, log: seq<Call>): nat
    requires i <= |script|
    decreases |script| - i
  {
    if (iterations.Some? && i >= iterations.value) || i == |script| then i
    else
      var (calls, end) := Iteration(cfg, i, script[i], log);
      if end != Going then i else Completed(cfg, iterations, script, i + 1, calls)
  }

  /** The tally of `n` complete iterations and the way the next one ended. */
  function TallyUpTo(cfg: Config, n: nat, end: End, m: nat): Tally {
    Tally(n, n, if m < n && Due(cfg.interval, m) then 1 else 0)
    .Plus(if end == Done || end == Going then Tally(0, 0, 0) else Expected(cfg, n, end, m))
  }

  lemma StepTally(cfg: Config, i: nat, a: Answers, log: seq<Call>, m: nat)
    requires TallyOf(log, m) == TallyUpTo(cfg, i, Going, m)
    ensures var (calls, end) := Iteration(cfg, i, a, log);
            TallyOf(calls, m) == if end == Going then TallyUpTo(cfg, i + 1, Going, m) else TallyUpTo(cfg, i, end, m)
  {
    IterationTally(cfg, i, a, log, m);
    IterationEnds(cfg, i, a, log);
    UpToNext(cfg, i, m);
  }

  lemma UpToNext(cfg: Config, i: nat, m: nat)
    ensures TallyUpTo(cfg, i, Going, m).Plus(Expected(cfg, i, Going, m)) == TallyUpTo(cfg, i + 1, Going, m)
  {
  }

  lemma {:induction false} LoopTally(cfg: Config, iterations: Option<nat>, script: seq<Answers>, i: nat, log: seq<Call>, m: nat)
    requires i <= |script| && TallyOf(log, m) == TallyUpTo(cfg, i, Going, m)
    ensures TallyOf(Loop(cfg, iterations, script, i, log).0, m)
            == TallyUpTo(cfg, Completed(cfg, iterations, script, i, log), Loop(cfg, iterations, script, i, log).1, m)
    decreases |script| - i
  {
    if !(iterations.Some? && i >= iterations.value) && i < |script| {
      StepTally(cfg, i, script[i], log, m);
      var (calls, end) := Iteration(cfg, i, script[i], log);
      if end == Going {
        LoopTally(cfg, iterations, script, i + 1, calls, m);
      }
    }
  }

  lemma {:induction false} LoopEnds(cfg: Config, iterations: Option<nat>, script: seq<Answers>, i: nat, log: seq<Call>)
    requires i <= |script|
    ensures var n, end := Completed(cfg, iterations, script, i, log), Loop(cfg, iterations, script, i, log).1;
            && (AtCheckpoint(end) ==> Due(cfg.interval, n))
            && (end == Done ==> iterations.Some? && (i <= iterations.value ==> n == iterations.value))
    decreases |script| - i
  {
    if !(iterations.Some? && i >= iterations.value) && i < |script| {
      IterationEnds(cfg, i, script[i], log);
      var (calls, end) := Iteration(cfg, i, script[i], log);
      if end == Going {
        LoopEnds(cfg, iterations, script, i + 1, calls);
      }
    }
  }

  function CompletedIn(cfg: Config, iterations: Option<nat>, script: seq<Answers>): nat {
    if !cfg.inRun && iterations.None? && !cfg.stopping then 0
    else Completed(cfg, iterations, script, 0, NoCalls())
  }

  lemma NoTally(cfg: Config, end: End, m: nat)
    requires end == Going || end == NeedsStopping
    ensures TallyOf(NoCalls(), m) == TallyUpTo(cfg, 0, end, m)
  {
  }

  lemma RunTally(cfg: Config, iterations: Option<nat>, script: seq<Answers>, m: nat)
    ensures TallyOf(Run(cfg, iterations, script).0, m)
            == TallyUpTo(cfg, CompletedIn(cfg, iterations, script), Run(cfg, iterations, script).1, m)
  {
    if !cfg.inRun && iterations.None? && !cfg.stopping {
      NoTally(cfg, NeedsStopping, m);
    } else {
      NoTally(cfg, Going, m);
      LoopTally(cfg, iterations, script, 0, NoCalls(), m);
    }
  }

  lemma RunEnds(cfg: Config, iterations: Option<nat>, script: seq<Answers>)
    ensures AtCheckpoint(Run(cfg, iterations, script).1) ==> Due(cfg.interval, CompletedIn(cfg, iterations, script))
    ensures Run(cfg, iterations, script).1 == Done ==> iterations == Some(CompletedIn(cfg, iterations, script))
  {
    LoopEnds(cfg, iterations, script, 0, NoCalls());
  }

  lemma SavesUpTo(cfg: Config, n: nat, end: End, m: nat)
    ensures TallyUpTo(cfg, n, end, m).saves
            == if (m < n && Due(cfg.interval, m)) || (m == n && end == CheckpointFailed) then 1 else 0
  {
  }

  lemma RecordsUpTo(cfg: Config, n: nat, end: End, m: nat)
    requires end != ReadMismatch
    ensures var t := TallyUpTo(cfg, n, end, m);
            && t.records == t.ingests - (if (end == Stopped && !cfg.inRun) || end == ReadThrown then 1 else 0)
            && n <= t.records <= n + 1
  {
  }

  /** In every run the optimizer is checkpointed once at each completed
      iteration that completes an interval, and at no other - but where saving
      fails, which ends the run at such an iteration. */
  lemma CheckpointsAreDue(cfg: Config, iterations: Option<nat>, script: seq<Answers>, m: nat)
    ensures var n, end := CompletedIn(cfg, iterations, script), Run(cfg, iterations, script).1;
            && TallyOf(Run(cfg, iterations, script).0, m).saves
               == (if (m < n && Due(cfg.interval, m)) || (m == n && end == CheckpointFailed) then 1 else 0)
            && (AtCheckpoint(end) ==> Due(cfg.interval, n))
            && (end == Done ==> iterations == Some(n))
  {
    RunTally(cfg, iterations, script, m);
    RunEnds(cfg, iterations, script);
    SavesUpTo(cfg, CompletedIn(cfg, iterations, script), Run(cfg, iterations, script).1, m);
  }

  /** As many events are recorded as ingests succeed, less one when the
      stopping criterion ends `optimize`, or the engine a recording. */
  lemma EventsAreIngests(cfg: Config, iterations: Option<nat>, script: seq<Answers>, m: nat)
    ensures var n, end := CompletedIn(cfg, iterations, script), Run(cfg, iterations, script).1;
            var t := TallyOf(Run(cfg, iterations, script).0, m);
            && t.records == t.ingests - (if (end == Stopped && !cfg.inRun) || end == ReadThrown then 1 else 0)
            && n <= t.records <= n + 1
  {
    RunTally(cfg, iterations, script, m);
    ReadNeverMismatches(cfg, iterations, script);
    RecordsUpTo(cfg, CompletedIn(cfg, iterations, script), Run(cfg, iterations, script).1, m);
  }
}
