/**
 * The duplicator of lib/duplicate.js: `run` validates its settings and calls
 * `duplicateDocument` once per copy, with an id from `generateNewDocId`;
 * the first error thrown ends the run, a missing source does not.
 */
module Duplicate {
  import opened Wrappers
  import opened JsonValues
  import opened Text
  import opened DocumentStore

  /**
   * The settings `run` reads from the environment.  `parsedCount` is
   * `parseInt(NUM_OF_DUPLICATES || "1", 10)`, with `None` for NaN.
   */
  datatype DuplicateEnv = DuplicateEnv(
    collectionPath: Option<string>,
    sourceDocId: Option<string>,
    prefix: Option<string>,
    postfix: Option<string>,
    parsedCount: Option<int>)

  /** Validated settings: prefix and postfix trimmed, at least one copy. */
  datatype DuplicateConfig = DuplicateConfig(
    collectionPath: string,
    sourceDocId: string,
    prefix: string,
    postfix: string,
    count: nat)

  /** Both configuration errors make `run` exit with status 1 before any copy. */
  datatype ConfigError = MissingSetting | InvalidCount

  /** `process.env.X || ""`. */
  function Setting(v: Option<string>): string {
    if v.Some? then v.value else ""
  }

  /** The validation at the top of `run`. */
  function LoadDuplicateConfig(env: DuplicateEnv): (r: Result<DuplicateConfig, ConfigError>)
    ensures r.Ok? <==> (Setting(env.collectionPath) != "" && Setting(env.sourceDocId) != ""
                        && env.parsedCount.Some? && env.parsedCount.value >= 1)
    ensures r == Err(MissingSetting) <==> Setting(env.collectionPath) == "" || Setting(env.sourceDocId) == ""
    ensures r.Ok? ==> r.value.count == env.parsedCount.value && r.value.count >= 1
    ensures r.Ok? ==> (r.value.sourceDocId == env.sourceDocId.value
                       && r.value.prefix == Trim(Setting(env.prefix))
                       && r.value.postfix == Trim(Setting(env.postfix)))
  {
    var collectionPath := Setting(env.collectionPath);
    var sourceDocId := Setting(env.sourceDocId);
    if collectionPath == "" || sourceDocId == "" then Err(MissingSetting)
    else if env.parsedCount.None? || env.parsedCount.value < 1 then Err(InvalidCount)
    else Ok(DuplicateConfig(collectionPath, sourceDocId, Trim(Setting(env.prefix)),
                            Trim(Setting(env.postfix)), env.parsedCount.value))
  }

  /** The `parts` array of `generateNewDocId` before the unique suffix is pushed. */
  function IdParts(cfg: DuplicateConfig): seq<string> {
    (if cfg.prefix != "" then [cfg.prefix] else []) + [cfg.sourceDocId]
    + (if cfg.postfix != "" then [cfg.postfix] else [])
  }

  /** The unique suffix: the timestamp, followed by `_{index+1}` when copying more than once. */
  function UniqueSuffix(cfg: DuplicateConfig, index: nat, timestamp: nat): string {
    if cfg.count > 1 then NatToString(timestamp) + "_" + NatToString(index + 1)
    else NatToString(timestamp)
  }

  /**
   * `generateNewDocId(index)` with `Date.now()` read as `timestamp`: `None`
   * asks the database for a generated id.
   */
  function GenerateNewDocId(cfg: DuplicateConfig, index: nat, timestamp: nat): (r: Option<string>)
    ensures r.None? <==> cfg.prefix == "" && cfg.postfix == ""
  {
    var hasPrefix := cfg.prefix != "";
    var hasPostfix := cfg.postfix != "";
    if !hasPrefix && !hasPostfix then None
    else Some(Join(IdParts(cfg) + [UniqueSuffix(cfg, index, timestamp)]))
  }

  /** The generated id spelled out: `{prefix}_{sourceDocId}_{postfix}_{timestamp}[_{index+1}]`. */
  function IdPattern(cfg: DuplicateConfig, index: nat, timestamp: nat): string {
    (if cfg.prefix != "" then cfg.prefix + "_" else "")
    + cfg.sourceDocId
    + (if cfg.postfix != "" then "_" + cfg.postfix else "")
    + "_" + NatToString(timestamp)
    + (if cfg.count > 1 then "_" + NatToString(index + 1) else "")
  }

  /** The stem of the pattern, before the unique suffix. */
  function Stem(cfg: DuplicateConfig): string {
    (if cfg.prefix != "" then cfg.prefix + "_" else "")
    + cfg.sourceDocId
    + (if cfg.postfix != "" then "_" + cfg.postfix else "")
  }

  lemma JoinedParts(cfg: DuplicateConfig)
    ensures Join(IdParts(cfg)) == Stem(cfg)
  {
    var src := cfg.sourceDocId;
    if cfg.prefix != "" && cfg.postfix != "" {
      assert IdParts(cfg) == [cfg.prefix, src] + [cfg.postfix];
      JoinSnoc([cfg.prefix, src], cfg.postfix);
      assert [cfg.prefix, src] == [cfg.prefix] + [src];
      JoinSnoc([cfg.prefix], src);
    } else if cfg.prefix != "" {
      assert IdParts(cfg) == [cfg.prefix] + [src];
      JoinSnoc([cfg.prefix], src);
    } else if cfg.postfix != "" {
      assert IdParts(cfg) == [src] + [cfg.postfix];
      JoinSnoc([src], cfg.postfix);
    } else {
      assert IdParts(cfg) == [src];
    }
  }

  /** The joined parts spell out the pattern. */
  lemma GeneratedIdShape(cfg: DuplicateConfig, index: nat, timestamp: nat)
    requires cfg.prefix != "" || cfg.postfix != ""
    ensures GenerateNewDocId(cfg, index, timestamp) == Some(IdPattern(cfg, index, timestamp))
  {
    var u := UniqueSuffix(cfg, index, timestamp);
    JoinSnoc(IdParts(cfg), u);
    JoinedParts(cfg);
    var ts := NatToString(timestamp);
    var tail := if cfg.count > 1 then "_" + NatToString(index + 1) else "";
    assert u == ts + tail;
    assert Stem(cfg) + "_" + u == Stem(cfg) + "_" + ts + tail;
    assert IdPattern(cfg, index, timestamp) == Stem(cfg) + "_" + ts + tail;
  }

  /**
   * With more than one copy, the ids for different indices differ whatever
   * the clock reads: they end in different decimal numbers after the last "_".
   */
  lemma GeneratedIdsDistinct(cfg: DuplicateConfig, i: nat, j: nat, ti: nat, tj: nat)
    requires cfg.count > 1 && i != j
    requires cfg.prefix != "" || cfg.postfix != ""
    ensures GenerateNewDocId(cfg, i, ti) != GenerateNewDocId(cfg, j, tj)
  {
    var hi := GeneratedIdEndsWithIndex(cfg, i, ti);
    var hj := GeneratedIdEndsWithIndex(cfg, j, tj);
    var di, dj := NatToString(i + 1), NatToString(j + 1);
    if hi + "_" + di == hj + "_" + dj {
      SameLastSegment(hi, di, hj, dj);
    }
  }

  /**
   * With more than one copy, the id ends in "_" and the decimal `index + 1`,
   * which holds no "_": that number is the text after the id's last "_".
   */
  lemma GeneratedIdEndsWithIndex(cfg: DuplicateConfig, index: nat, timestamp: nat) returns (head: string)
    requires cfg.count > 1
    requires cfg.prefix != "" || cfg.postfix != ""
    ensures GenerateNewDocId(cfg, index, timestamp) == Some(head + "_" + NatToString(index + 1))
    ensures '_' !in NatToString(index + 1)
  {
    var ts, d := NatToString(timestamp), NatToString(index + 1);
    JoinSnoc(IdParts(cfg), ts + "_" + d);
    head := Join(IdParts(cfg)) + "_" + ts;
    assert Join(IdParts(cfg)) + "_" + (ts + "_" + d) == head + "_" + d;
    assert '_' !in d;
  }

  /** Two copies of "abc" with prefix "bak" and postfix "v2" are named `bak_abc_v2_{timestamp}_1` and `_2`. */
  lemma GeneratedIdExample(timestamp: nat)
    ensures var cfg := DuplicateConfig("items", "abc", "bak", "v2", 2);
      && GenerateNewDocId(cfg, 0, timestamp) == Some("bak_abc_v2_" + NatToString(timestamp) + "_1")
      && GenerateNewDocId(cfg, 1, timestamp) == Some("bak_abc_v2_" + NatToString(timestamp) + "_2")
  {
    var ts := NatToString(timestamp);
    ExampleIdAt(timestamp, 0);
    ExampleIdAt(timestamp, 1);
    assert NatToString(1) == "1" && NatToString(2) == "2";
    assert "bak_abc_v2_" + ts + "_" + "1" == "bak_abc_v2_" + ts + "_1";
    assert "bak_abc_v2_" + ts + "_" + "2" == "bak_abc_v2_" + ts + "_2";
  }

  lemma ExampleIdAt(timestamp: nat, index: nat)
    ensures GenerateNewDocId(DuplicateConfig("items", "abc", "bak", "v2", 2), index, timestamp)
         == Some("bak_abc_v2_" + NatToString(timestamp) + "_" + NatToString(index + 1))
  {
    var cfg := DuplicateConfig("items", "abc", "bak", "v2", 2);
    var ts, d := NatToString(timestamp), NatToString(index + 1);
    assert Stem(cfg) == "bak_abc_v2";
    GeneratedIdShape(cfg, index, timestamp);
    assert IdPattern(cfg, index, timestamp) == Stem(cfg) + "_" + ts + "_" + d;
    assert Stem(cfg) + "_" == "bak_abc_v2_";
  }

  /** A generated id is never the source's own id. */
  lemma GeneratedIdNotSource(cfg: DuplicateConfig, index: nat, timestamp: nat)
    requires cfg.prefix != "" || cfg.postfix != ""
    ensures GenerateNewDocId(cfg, index, timestamp) != Some(cfg.sourceDocId)
    ensures GenerateNewDocId(cfg, index, timestamp) != Some("")
  {
    GeneratedIdShape(cfg, index, timestamp);
  }

  /** A prefix and postfix of whitespace only count as absent: every copy gets a generated id. */
  lemma BlankAffixesMeanGeneratedIds(env: DuplicateEnv, index: nat, timestamp: nat)
    requires forall i :: 0 <= i < |Setting(env.prefix)| ==> IsWhitespace(Setting(env.prefix)[i])
    requires forall i :: 0 <= i < |Setting(env.postfix)| ==> IsWhitespace(Setting(env.postfix)[i])
    ensures var r := LoadDuplicateConfig(env);
      r.Ok? ==> GenerateNewDocId(r.value, index, timestamp).None?
  {
    TrimEmptyIff(Setting(env.prefix));
    TrimEmptyIff(Setting(env.postfix));
  }

  /** What one call of `duplicateDocument` does. */
  datatype DuplicateOutcome = NotFound | Copied(id: DocId) | Threw

  /**
   * `duplicateDocument(collectionPath, sourceDocId, newDocId)`.  `fails`
   * says that the read or the write throws; the error is rethrown and no
   * document changes.
   */
  function DuplicateOne(s: StoreState, sourceDocId: string, newDocId: Option<string>, fails: bool)
    : (StoreState, DuplicateOutcome)
  {
    if fails then (s, Threw)
    else if Named(sourceDocId) !in s.docs then (s, NotFound)
    else
      var data := s.docs[Named(sourceDocId)];
      if newDocId.Some? && newDocId.value != "" then
        (Write(s, Named(newDocId.value), data), Copied(Named(newDocId.value)))
      else
        var (id, s1) := NewAutoId(s);
        (Write(s1, id, data), Copied(id))
  }

  /**
   * A missing source writes nothing; an existing one is copied, unchanged, to
   * `newDocId` when it is a non-empty string or else to a fresh generated id,
   * and nothing else changes.
   */
  lemma DuplicateOneEffect(s: StoreState, sourceDocId: string, newDocId: Option<string>, fails: bool)
    requires AutoFresh(s)
    ensures var (s', o) := DuplicateOne(s, sourceDocId, newDocId, fails);
      && (o.Threw? <==> fails)
      && (o.NotFound? <==> !fails && Named(sourceDocId) !in s.docs)
      && (!o.Copied? ==> s' == s)
      && (o.Copied? ==> s'.docs == s.docs[o.id := s.docs[Named(sourceDocId)]])
      && (o.Copied? && newDocId.Some? && newDocId.value != "" ==> o.id == Named(newDocId.value))
      && (o.Copied? && !(newDocId.Some? && newDocId.value != "") ==> o.id.Auto? && o.id !in s.docs)
      && AutoFresh(s')
  {
  }

  method DuplicateDocument(c: Collection, sourceDocId: string, newDocId: Option<string>, fails: bool)
    returns (o: DuplicateOutcome)
    requires c.Valid()
    modifies c
    ensures c.Valid()
    ensures (c.State(), o) == DuplicateOne(old(c.State()), sourceDocId, newDocId, fails)
  {
    if fails {
      return Threw;
    }
    var source := c.Get(Named(sourceDocId));
    if source.None? {
      return NotFound;
    }
    var data := source.value;
    var target: DocId;
    if newDocId.Some? && newDocId.value != "" {
      target := Named(newDocId.value);
    } else {
      target := c.NewDocRef();
    }
    c.Set(target, data);
    o := Copied(target);
  }

  /** The loop of `run` after its first `n` iterations. */
  datatype RunProgress = RunProgress(state: StoreState, outcomes: seq<DuplicateOutcome>, threw: bool)

  /** The id `generateNewDocId(i)` returns in iteration `i`, which reads the clock as `clock(i)`. */
  function NewDocIds(cfg: DuplicateConfig, clock: nat -> nat): nat -> Option<string> {
    (i: nat) => GenerateNewDocId(cfg, i, clock(i))
  }

  /**
   * Iteration `i` copies `sourceDocId` to `ids(i)` and throws when `i` is in
   * `failing`; the loop stops after the first iteration that throws.
   */
  function DuplicatePrefix(s0: StoreState, sourceDocId: string, ids: nat -> Option<string>, failing: set<nat>, n: nat)
    : RunProgress
  {
    if n == 0 then RunProgress(s0, [], false)
    else
      var p := DuplicatePrefix(s0, sourceDocId, ids, failing, n - 1);
      if p.threw then p
      else
        var (s', o) := DuplicateOne(p.state, sourceDocId, ids(n - 1), n - 1 in failing);
        RunProgress(s', p.outcomes + [o], o.Threw?)
  }

  /** The new state, the exit status and the outcome of each call of `run`. */
  function RunSpec(s0: StoreState, env: DuplicateEnv, clock: nat -> nat, failing: set<nat>)
    : (StoreState, int, seq<DuplicateOutcome>)
  {
    match LoadDuplicateConfig(env)
    case Err(_) => (s0, 1, [])
    case Ok(cfg) =>
      var p := DuplicatePrefix(s0, cfg.sourceDocId, NewDocIds(cfg, clock), failing, cfg.count);
      (p.state, if p.threw then 1 else 0, p.outcomes)
  }

  /** The `try` block of `run`: the duplication loop, which stops at the first error. */
  method DuplicateAll(c: Collection, cfg: DuplicateConfig, clock: nat -> nat, failing: set<nat>)
    returns (threw: bool, outcomes: seq<DuplicateOutcome>)
    requires c.Valid()
    modifies c
    ensures c.Valid()
    ensures DuplicatePrefix(old(c.State()), cfg.sourceDocId, NewDocIds(cfg, clock), failing, cfg.count) == RunProgress(c.State(), outcomes, threw)
  {
    outcomes := [];
    for i := 0 to cfg.count
      invariant c.Valid()
      invariant DuplicatePrefix(old(c.State()), cfg.sourceDocId, NewDocIds(cfg, clock), failing, i) == RunProgress(c.State(), outcomes, false)
    {
      var newDocId := GenerateNewDocId(cfg, i, clock(i));
      var o := DuplicateDocument(c, cfg.sourceDocId, newDocId, i in failing);
      outcomes := outcomes + [o];
      if o.Threw? {
        DuplicateThrowStays(old(c.State()), cfg.sourceDocId, NewDocIds(cfg, clock), failing, i + 1, cfg.count);
        return true, outcomes;
      }
    }
    threw := false;
  }

  /** `run`, with the exit status returned instead of ending the process. */
  method Run(c: Collection, env: DuplicateEnv, clock: nat -> nat, failing: set<nat>)
    returns (exitCode: int, outcomes: seq<DuplicateOutcome>)
    requires c.Valid()
    modifies c
    ensures c.Valid()
    ensures (c.State(), exitCode, outcomes) == RunSpec(old(c.State()), env, clock, failing)
  {
    var config := LoadDuplicateConfig(env);
    if config.Err? {
      return 1, [];
    }
    var threw;
    threw, outcomes := DuplicateAll(c, config.value, clock, failing);
    exitCode := if threw then 1 else 0;
  }

  /** Once an iteration has thrown, the loop runs no further iteration. */
  lemma {:induction false} DuplicateThrowStays(s0: StoreState, sourceDocId: string, ids: nat -> Option<string>, failing: set<nat>, k: nat, n: nat)
    requires k <= n
    requires DuplicatePrefix(s0, sourceDocId, ids, failing, k).threw
    ensures DuplicatePrefix(s0, sourceDocId, ids, failing, n) == DuplicatePrefix(s0, sourceDocId, ids, failing, k)
    decreases n
  {
    if n > k {
      DuplicateThrowStays(s0, sourceDocId, ids, failing, k, n - 1);
    }
  }

  /**
   * The loop runs iterations 0, 1, ... in order and stops exactly at the first
   * one that throws: every earlier iteration neither threw nor was failing.
   */
  lemma {:induction false} DuplicateStopsAtFirstError(s0: StoreState, sourceDocId: string, ids: nat -> Option<string>, failing: set<nat>, n: nat)
    ensures var p := DuplicatePrefix(s0, sourceDocId, ids, failing, n);
      && (p.threw <==> exists k :: 0 <= k < n && k in failing)
      && (p.threw ==> |p.outcomes| - 1 in failing && p.outcomes[|p.outcomes| - 1] == Threw)
      && (!p.threw ==> |p.outcomes| == n)
      && |p.outcomes| <= n
      && (forall k :: 0 <= k < |p.outcomes| - 1 ==> k !in failing && !p.outcomes[k].Threw?)
      && (!p.threw ==> forall k :: 0 <= k < |p.outcomes| ==> !p.outcomes[k].Threw?)
  {
    if n > 0 {
      DuplicateStopsAtFirstError(s0, sourceDocId, ids, failing, n - 1);
    }
  }

  /** A missing source is a per-call no-op: the loop goes on and nothing is written. */
  lemma {:induction false} DuplicateMissingSource(s0: StoreState, sourceDocId: string, ids: nat -> Option<string>, failing: set<nat>, n: nat)
    requires Named(sourceDocId) !in s0.docs
    requires forall k :: 0 <= k < n ==> k !in failing
    ensures DuplicatePrefix(s0, sourceDocId, ids, failing, n) == RunProgress(s0, seq(n, _ => NotFound), false)
  {
    if n > 0 {
      DuplicateMissingSource(s0, sourceDocId, ids, failing, n - 1);
      assert seq(n - 1, _ => NotFound) + [NotFound] == seq(n, _ => NotFound);
    }
  }

  /** Where iteration `i` writes its copy when nothing throws. */
  function CopyTarget(s0: StoreState, cfg: DuplicateConfig, clock: nat -> nat, i: nat): DocId {
    match GenerateNewDocId(cfg, i, clock(i))
    case Some(name) => Named(name)
    case None => Auto(s0.nextAuto + i)
  }

  /** Different iterations of one run write to different targets, none of them the source. */
  lemma CopyTargetsDistinct(s0: StoreState, cfg: DuplicateConfig, clock: nat -> nat, i: nat, j: nat)
    requires i < cfg.count && j < cfg.count
    ensures CopyTarget(s0, cfg, clock, i) != Named(cfg.sourceDocId)
    ensures i != j ==> CopyTarget(s0, cfg, clock, i) != CopyTarget(s0, cfg, clock, j)
  {
    if cfg.prefix != "" || cfg.postfix != "" {
      GeneratedIdNotSource(cfg, i, clock(i));
      if i != j {
        GeneratedIdsDistinct(cfg, i, j, clock(i), clock(j));
      }
    }
  }

  /** The targets of the first `n` iterations. */
  function CopyTargets(s0: StoreState, cfg: DuplicateConfig, clock: nat -> nat, n: nat): set<DocId> {
    set k | 0 <= k < n :: CopyTarget(s0, cfg, clock, k)
  }

  /** Iteration `k` reported a copy to its own target, for every `k < n`. */
  predicate OutcomesSoFar(s0: StoreState, cfg: DuplicateConfig, clock: nat -> nat, n: nat, outcomes: seq<DuplicateOutcome>) {
    |outcomes| == n && forall k :: 0 <= k < n ==> outcomes[k] == Copied(CopyTarget(s0, cfg, clock, k))
  }

  /** The target of every iteration `k < n` holds `data`. */
  predicate CopiesInPlace(s0: StoreState, cfg: DuplicateConfig, clock: nat -> nat, n: nat, docs: map<DocId, Json>, data: Json) {
    forall k :: 0 <= k < n ==> CopyTarget(s0, cfg, clock, k) in docs && docs[CopyTarget(s0, cfg, clock, k)] == data
  }

  /** Every document of `s0` that is no target of the first `n` iterations is unchanged. */
  predicate OthersUnchanged(s0: StoreState, cfg: DuplicateConfig, clock: nat -> nat, n: nat, docs: map<DocId, Json>) {
    forall id :: id in s0.docs && id !in CopyTargets(s0, cfg, clock, n) ==> id in docs && docs[id] == s0.docs[id]
  }

  /**
   * After `n` iterations that all found the source and none of which threw:
   * iteration `k` copied the source to its target, every copy is still in
   * place, the source is unchanged and no other document changed.
   */
  ghost predicate CopiedSoFar(s0: StoreState, cfg: DuplicateConfig, clock: nat -> nat, n: nat, p: RunProgress)
    requires Named(cfg.sourceDocId) in s0.docs
  {
    var data := s0.docs[Named(cfg.sourceDocId)];
    && !p.threw
    && AutoFresh(p.state)
    && p.state.nextAuto == s0.nextAuto + (if cfg.prefix == "" && cfg.postfix == "" then n else 0)
    && p.state.docs.Keys == s0.docs.Keys + CopyTargets(s0, cfg, clock, n)
    && Named(cfg.sourceDocId) in p.state.docs
    && p.state.docs[Named(cfg.sourceDocId)] == data
    && OutcomesSoFar(s0, cfg, clock, n, p.outcomes)
    && CopiesInPlace(s0, cfg, clock, n, p.state.docs, data)
    && OthersUnchanged(s0, cfg, clock, n, p.state.docs)
  }

  lemma DuplicateCopyStep(s0: StoreState, cfg: DuplicateConfig, clock: nat -> nat, failing: set<nat>, n: nat, p: RunProgress)
    requires AutoFresh(s0)
    requires Named(cfg.sourceDocId) in s0.docs
    requires 0 < n <= cfg.count && n - 1 !in failing
    requires p == DuplicatePrefix(s0, cfg.sourceDocId, NewDocIds(cfg, clock), failing, n - 1)
    requires CopiedSoFar(s0, cfg, clock, n - 1, p)
    ensures CopiedSoFar(s0, cfg, clock, n, DuplicatePrefix(s0, cfg.sourceDocId, NewDocIds(cfg, clock), failing, n))
  {
    var q := DuplicatePrefix(s0, cfg.sourceDocId, NewDocIds(cfg, clock), failing, n);
    CopyStepEffect(s0, cfg, clock, failing, n, p);
    CopiedAfterStep(s0, cfg, clock, n, p, q, CopyTarget(s0, cfg, clock, n - 1));
  }

  /** Iteration `n - 1`, after earlier iterations that all copied, copies the source to its own target. */
  lemma CopyStepEffect(s0: StoreState, cfg: DuplicateConfig, clock: nat -> nat, failing: set<nat>, n: nat, p: RunProgress)
    requires 0 < n <= cfg.count && n - 1 !in failing
    requires p == DuplicatePrefix(s0, cfg.sourceDocId, NewDocIds(cfg, clock), failing, n - 1)
    requires !p.threw && AutoFresh(p.state) && Named(cfg.sourceDocId) in p.state.docs
    requires p.state.nextAuto == s0.nextAuto + (if cfg.prefix == "" && cfg.postfix == "" then n - 1 else 0)
    ensures var q := DuplicatePrefix(s0, cfg.sourceDocId, NewDocIds(cfg, clock), failing, n);
      && q.outcomes == p.outcomes + [Copied(CopyTarget(s0, cfg, clock, n - 1))] && !q.threw
      && q.state.docs == p.state.docs[CopyTarget(s0, cfg, clock, n - 1) := p.state.docs[Named(cfg.sourceDocId)]]
      && q.state.nextAuto == p.state.nextAuto + (if cfg.prefix == "" && cfg.postfix == "" then 1 else 0)
      && AutoFresh(q.state)
  {
    var ids := NewDocIds(cfg, clock);
    assert ids(n - 1) == GenerateNewDocId(cfg, n - 1, clock(n - 1));
    PrefixStep(s0, cfg.sourceDocId, ids, failing, n, p);
    CopyOneTo(s0, cfg, clock, n - 1, p.state);
  }

  /** Iteration `n - 1` of `DuplicatePrefix` after a prefix that did not throw makes one more call. */
  lemma PrefixStep(s0: StoreState, sourceDocId: string, ids: nat -> Option<string>, failing: set<nat>, n: nat, p: RunProgress)
    requires 0 < n && n - 1 !in failing
    requires p == DuplicatePrefix(s0, sourceDocId, ids, failing, n - 1) && !p.threw
    ensures var (s', o) := DuplicateOne(p.state, sourceDocId, ids(n - 1), false);
      DuplicatePrefix(s0, sourceDocId, ids, failing, n) == RunProgress(s', p.outcomes + [o], o.Threw?)
  {
  }

  /** One successful call of `duplicateDocument` in iteration `i` copies the source to that iteration's target. */
  lemma CopyOneTo(s0: StoreState, cfg: DuplicateConfig, clock: nat -> nat, i: nat, s: StoreState)
    requires i < cfg.count
    requires AutoFresh(s) && Named(cfg.sourceDocId) in s.docs
    requires s.nextAuto == s0.nextAuto + (if cfg.prefix == "" && cfg.postfix == "" then i else 0)
    ensures var (s', o) := DuplicateOne(s, cfg.sourceDocId, GenerateNewDocId(cfg, i, clock(i)), false);
      && o == Copied(CopyTarget(s0, cfg, clock, i))
      && s'.docs == s.docs[CopyTarget(s0, cfg, clock, i) := s.docs[Named(cfg.sourceDocId)]]
      && s'.nextAuto == s.nextAuto + (if cfg.prefix == "" && cfg.postfix == "" then 1 else 0)
      && AutoFresh(s')
  {
    var newDocId := GenerateNewDocId(cfg, i, clock(i));
    if newDocId.Some? {
      GeneratedIdNotSource(cfg, i, clock(i));
    }
    DuplicateOneEffect(s, cfg.sourceDocId, newDocId, false);
  }

  /** The targets of iterations before `n - 1` all differ from that of iteration `n - 1` and from the source. */
  lemma EarlierTargetsDiffer(s0: StoreState, cfg: DuplicateConfig, clock: nat -> nat, n: nat)
    requires 0 < n <= cfg.count
    ensures CopyTargets(s0, cfg, clock, n) == CopyTargets(s0, cfg, clock, n - 1) + {CopyTarget(s0, cfg, clock, n - 1)}
    ensures CopyTarget(s0, cfg, clock, n - 1) !in CopyTargets(s0, cfg, clock, n - 1)
    ensures Named(cfg.sourceDocId) !in CopyTargets(s0, cfg, clock, n)
  {
    var t := CopyTarget(s0, cfg, clock, n - 1);
    forall k | 0 <= k < n ensures CopyTarget(s0, cfg, clock, k) != Named(cfg.sourceDocId)
      && (k < n - 1 ==> CopyTarget(s0, cfg, clock, k) != t)
    {
      CopyTargetsDistinct(s0, cfg, clock, k, n - 1);
    }
  }

  lemma CopiedAfterStep(s0: StoreState, cfg: DuplicateConfig, clock: nat -> nat, n: nat, p: RunProgress, q: RunProgress, t: DocId)
    requires AutoFresh(s0)
    requires Named(cfg.sourceDocId) in s0.docs
    requires 0 < n <= cfg.count
    requires CopiedSoFar(s0, cfg, clock, n - 1, p)
    requires t == CopyTarget(s0, cfg, clock, n - 1)
    requires q.outcomes == p.outcomes + [Copied(t)] && !q.threw
    requires q.state.docs == p.state.docs[t := s0.docs[Named(cfg.sourceDocId)]]
    requires q.state.nextAuto == p.state.nextAuto + (if cfg.prefix == "" && cfg.postfix == "" then 1 else 0)
    requires AutoFresh(q.state)
    ensures CopiedSoFar(s0, cfg, clock, n, q)
  {
    var data := s0.docs[Named(cfg.sourceDocId)];
    EarlierTargetsDiffer(s0, cfg, clock, n);
    OutcomesStep(s0, cfg, clock, n, p.outcomes);
    CopiesStep(s0, cfg, clock, n, p.state.docs, data);
    OthersStep(s0, cfg, clock, n, p.state.docs, data);
  }

  lemma OutcomesStep(s0: StoreState, cfg: DuplicateConfig, clock: nat -> nat, n: nat, outcomes: seq<DuplicateOutcome>)
    requires 0 < n && OutcomesSoFar(s0, cfg, clock, n - 1, outcomes)
    ensures OutcomesSoFar(s0, cfg, clock, n, outcomes + [Copied(CopyTarget(s0, cfg, clock, n - 1))])
  {
  }

  lemma CopiesStep(s0: StoreState, cfg: DuplicateConfig, clock: nat -> nat, n: nat, docs: map<DocId, Json>, data: Json)
    requires 0 < n <= cfg.count && CopiesInPlace(s0, cfg, clock, n - 1, docs, data)
    requires CopyTarget(s0, cfg, clock, n - 1) !in CopyTargets(s0, cfg, clock, n - 1)
    ensures CopiesInPlace(s0, cfg, clock, n, docs[CopyTarget(s0, cfg, clock, n - 1) := data], data)
  {
  }

  lemma OthersStep(s0: StoreState, cfg: DuplicateConfig, clock: nat -> nat, n: nat, docs: map<DocId, Json>, data: Json)
    requires 0 < n && OthersUnchanged(s0, cfg, clock, n - 1, docs)
    requires CopyTargets(s0, cfg, clock, n) == CopyTargets(s0, cfg, clock, n - 1) + {CopyTarget(s0, cfg, clock, n - 1)}
    ensures OthersUnchanged(s0, cfg, clock, n, docs[CopyTarget(s0, cfg, clock, n - 1) := data])
  {
  }

  /**
   * When the source exists and nothing throws, the first `n` iterations leave
   * `n` copies of the source's data, one per iteration at pairwise distinct
   * targets, with the source and every other document unchanged.
   */
  lemma {:induction false} DuplicateCopies(s0: StoreState, cfg: DuplicateConfig, clock: nat -> nat, failing: set<nat>, n: nat)
    requires AutoFresh(s0)
    requires Named(cfg.sourceDocId) in s0.docs
    requires n <= cfg.count
    requires forall k :: 0 <= k < n ==> k !in failing
    ensures CopiedSoFar(s0, cfg, clock, n, DuplicatePrefix(s0, cfg.sourceDocId, NewDocIds(cfg, clock), failing, n))
  {
    if n > 0 {
      var p := DuplicatePrefix(s0, cfg.sourceDocId, NewDocIds(cfg, clock), failing, n - 1);
      DuplicateCopies(s0, cfg, clock, failing, n - 1);
      DuplicateCopyStep(s0, cfg, clock, failing, n, p);
    } else {
      NothingCopiedYet(s0, cfg, clock, failing);
    }
  }

  lemma NothingCopiedYet(s0: StoreState, cfg: DuplicateConfig, clock: nat -> nat, failing: set<nat>)
    requires AutoFresh(s0)
    requires Named(cfg.sourceDocId) in s0.docs
    ensures CopiedSoFar(s0, cfg, clock, 0, DuplicatePrefix(s0, cfg.sourceDocId, NewDocIds(cfg, clock), failing, 0))
  {
    assert CopyTargets(s0, cfg, clock, 0) == {};
  }

  /**
   * `run` exits with status 0 exactly when its settings are valid and no
   * iteration throws; an invalid setting changes nothing, and a missing
   * source alone never makes it fail.
   */
  lemma RunExitStatus(s0: StoreState, env: DuplicateEnv, clock: nat -> nat, failing: set<nat>)
    ensures var (s', code, outcomes) := RunSpec(s0, env, clock, failing);
      var cfg := LoadDuplicateConfig(env);
      && (code == 0 <==> cfg.Ok? && forall k :: 0 <= k < cfg.value.count ==> k !in failing)
      && (code != 0 ==> code == 1)
      && (cfg.Err? ==> s' == s0 && outcomes == [])
      && (code == 0 ==> |outcomes| == cfg.value.count && forall k :: 0 <= k < |outcomes| ==> !outcomes[k].Threw?)
  {
    var cfg := LoadDuplicateConfig(env);
    if cfg.Ok? {
      DuplicateStopsAtFirstError(s0, cfg.value.sourceDocId, NewDocIds(cfg.value, clock), failing, cfg.value.count);
    }
  }
}
