/**
 * `ScrapingScheduler` (scheduler.py): the default jobs it registers and what each job body
 * does with the store. The scheduler's job table is a sequence of jobs; when a job fires, what
 * the site answers and whether the store accepts each write are parameters. Every job body
 * catches every exception, so each method here returns normally and reports how the job went.
 */
module Scheduler {
  import opened Wrappers
  import opened Models
  import opened Settings
  import opened Database
  import opened PriceQueries
  import opened ProductStore
  import ScraperFactory

  /** An APScheduler trigger: a cron time (optionally on one weekday) or a fixed interval. */
  datatype Trigger = Cron(dayOfWeek: Option<int>, hour: int, minute: int) | Interval(hours: int)

  datatype Job = Job(id: string, name: string, trigger: Trigger)

  /** The ids of the job table. */
  function JobIds(jobs: seq<Job>): (ids: set<string>)
    ensures forall j :: j in jobs ==> j.id in ids
    ensures |ids| <= |jobs|
  {
    if jobs == [] then {} else {jobs[0].id} + JobIds(jobs[1..])
  }

  predicate DistinctIds(jobs: seq<Job>) {
    forall i, j :: 0 <= i < j < |jobs| ==> jobs[i].id != jobs[j].id
  }

  /** The job table without any job of that id. */
  function WithoutId(jobs: seq<Job>, id: string): (r: seq<Job>)
    ensures forall x :: x in r <==> x in jobs && x.id != id
    ensures |r| <= |jobs|
  {
    if jobs == [] then []
    else
      assert forall x :: x in jobs ==> x == jobs[0] || x in jobs[1..];
      (if jobs[0].id == id then [] else [jobs[0]]) + WithoutId(jobs[1..], id)
  }

  /**
   * `add_job(..., replace_existing=True)`: a job with the same id is replaced, otherwise the
   * job is added.
   */
  function WithJob(jobs: seq<Job>, job: Job): (r: seq<Job>)
    ensures job in r
    ensures forall x :: x in r <==> x == job || (x in jobs && x.id != job.id)
    ensures |r| <= |jobs| + 1
  {
    WithoutId(jobs, job.id) + [job]
  }

  lemma {:induction false} JobIdsAppend(a: seq<Job>, b: seq<Job>)
    ensures JobIds(a + b) == JobIds(a) + JobIds(b)
    decreases |a|
  {
    if a == [] {
      assert a + b == b;
    } else {
      assert (a + b)[0] == a[0] && (a + b)[1..] == a[1..] + b;
      JobIdsAppend(a[1..], b);
    }
  }

  lemma JobIdsSingle(x: Job)
    ensures JobIds([x]) == {x.id}
  {
    assert [x][1..] == [];
  }

  /** Removing an id takes exactly that id out of the table's ids. */
  lemma {:induction false} JobIdsWithout(jobs: seq<Job>, id: string)
    ensures JobIds(WithoutId(jobs, id)) == JobIds(jobs) - {id}
    decreases |jobs|
  {
    if jobs != [] {
      JobIdsWithout(jobs[1..], id);
      JobIdsAppend(if jobs[0].id == id then [] else [jobs[0]], WithoutId(jobs[1..], id));
    }
  }

  lemma {:induction false} WithoutIdDistinct(jobs: seq<Job>, id: string)
    requires DistinctIds(jobs)
    ensures DistinctIds(WithoutId(jobs, id))
    decreases |jobs|
  {
    if jobs != [] {
      WithoutIdDistinct(jobs[1..], id);
      var rest := WithoutId(jobs[1..], id);
      if jobs[0].id != id {
        forall x | x in rest ensures x.id != jobs[0].id {
          var i :| 0 <= i < |jobs[1..]| && jobs[1..][i] == x;
          assert jobs[i + 1] == x;
        }
        DistinctCons(jobs[0], rest);
      } else {
        assert WithoutId(jobs, id) == rest;
      }
    }
  }

  /** Ids stay distinct as a job is added, and the ids are the old ones with the job's. */
  lemma WithJobDistinct(jobs: seq<Job>, job: Job)
    requires DistinctIds(jobs)
    ensures DistinctIds(WithJob(jobs, job))
    ensures JobIds(WithJob(jobs, job)) == JobIds(jobs) + {job.id}
  {
    WithoutIdDistinct(jobs, job.id);
    DistinctAppend(WithoutId(jobs, job.id), job);
    JobIdsWithout(jobs, job.id);
    JobIdsAppend(WithoutId(jobs, job.id), [job]);
  }

  lemma DistinctCons(x: Job, rest: seq<Job>)
    requires DistinctIds(rest) && forall y :: y in rest ==> y.id != x.id
    ensures DistinctIds([x] + rest)
  {
    var s := [x] + rest;
    forall i, j | 0 <= i < j < |s| ensures s[i].id != s[j].id {
      assert s[j] == rest[j - 1];
      if i > 0 {
        assert s[i] == rest[i - 1];
      }
    }
  }

  lemma DistinctAppend(rest: seq<Job>, x: Job)
    requires DistinctIds(rest) && forall y :: y in rest ==> y.id != x.id
    ensures DistinctIds(rest + [x])
  {
    var s := rest + [x];
    forall i, j | 0 <= i < j < |s| ensures s[i].id != s[j].id {
      assert s[i] == rest[i];
      if j < |rest| {
        assert s[j] == rest[j];
      }
    }
  }

  /** The daily sweep: each (site, term, max_results) in order. */
  datatype SearchConfig = SearchConfig(site: string, term: string, maxResults: int)

  const DefaultSearches: seq<SearchConfig> := [
    SearchConfig("amazon", "notebook", 30),
    SearchConfig("mercadolivre", "smartphone", 30),
    SearchConfig("ebay", "tablet", 20)]

  /** Each site of the sweep is a plain name of the registry as shipped, so creating its scraper cannot fail. */
  lemma DefaultSearchesRegistered()
    ensures forall c :: c in DefaultSearches ==> ScraperFactory.PlainKey(c.site) && c.site in ScraperFactory.DefaultClasses
  {
    ScraperFactory.MercadoLivreAliases();
  }

  /** Whether the writes of one sweep entry go through: session creation, save and session update. */
  datatype StorageFaults = StorageFaults(create: bool, save: bool, update: bool)

  /** How one entry of the sweep ended; the exception paths are logged and the sweep goes on. */
  datatype SearchOutcome =
    | ScrapeFailed
    | NoProducts
    | SessionFailed
    | SaveFailed(session: ScrapingSession)
    | UpdateFailed(session: ScrapingSession)
    | Completed(session: ScrapingSession, products: seq<ProductData>)

  predicate CreatedSession(o: SearchOutcome) {
    o.SaveFailed? || o.UpdateFailed? || o.Completed?
  }

  /** What an entry's outcome says about its search result and the session it created. */
  predicate Fits(o: SearchOutcome, found: Result<seq<ProductData>, string>, config: SearchConfig) {
    && (o == ScrapeFailed <==> found.Err?)
    && (o == NoProducts <==> found == Ok([]))
    && (CreatedSession(o) ==>
      && found.Ok? && found.value != []
      && o.session.site == config.site && o.session.searchTerm == Some(config.term)
      && o.session.sessionName == Some("Agendado - " + config.term) && !o.session.success)
    && (o.Completed? ==> o.products == found.value)
  }

  /** `all_products`: the product lists of the entries that completed, in order. */
  function Collected(outcomes: seq<SearchOutcome>): (r: seq<ProductData>)
    ensures (forall k :: 0 <= k < |outcomes| ==> !outcomes[k].Completed? || outcomes[k].products == []) ==> r == []
  {
    if outcomes == [] then []
    else
      var last := outcomes[|outcomes| - 1];
      Collected(outcomes[..|outcomes| - 1]) + (if last.Completed? then last.products else [])
  }

  function SessionsCreated(outcomes: seq<SearchOutcome>): (n: nat)
    ensures n <= |outcomes|
  {
    if outcomes == [] then 0
    else SessionsCreated(outcomes[..|outcomes| - 1]) + (if CreatedSession(outcomes[|outcomes| - 1]) then 1 else 0)
  }

  /** One more outcome adds its products and its session at the end. */
  lemma OutcomesStep(outcomes: seq<SearchOutcome>, o: SearchOutcome)
    ensures Collected(outcomes + [o]) == Collected(outcomes) + (if o.Completed? then o.products else [])
    ensures SessionsCreated(outcomes + [o]) == SessionsCreated(outcomes) + (if CreatedSession(o) then 1 else 0)
  {
    assert (outcomes + [o])[..|outcomes|] == outcomes;
  }

  /** An entry's outcome fits its search, and a session left open by a refused save is still stored. */
  predicate Recorded(o: SearchOutcome, found: Result<seq<ProductData>, string>, config: SearchConfig, sessions: seq<ScrapingSession>) {
    Fits(o, found, config) && (o.SaveFailed? ==> o.session in sessions)
  }

  lemma RecordedKept(o: SearchOutcome, found: Result<seq<ProductData>, string>, config: SearchConfig, s1: seq<ScrapingSession>, s2: seq<ScrapingSession>)
    requires Recorded(o, found, config, s1) && s1 <= s2
    ensures Recorded(o, found, config, s2)
  {
    if o.SaveFailed? {
      PrefixKeeps(s1, s2, o.session);
    }
  }

  /** The outcomes so far stay recorded as the sessions grow, and the newest joins them. */
  lemma RecordedStep(outcomes: seq<SearchOutcome>, o: SearchOutcome, found: seq<Result<seq<ProductData>, string>>,
                     searches: seq<SearchConfig>, s1: seq<ScrapingSession>, s2: seq<ScrapingSession>)
    requires |outcomes| < |found| && |found| == |searches| && s1 <= s2
    requires forall j :: 0 <= j < |outcomes| ==> Recorded(outcomes[j], found[j], searches[j], s1)
    requires Recorded(o, found[|outcomes|], searches[|outcomes|], s2)
    ensures forall j :: 0 <= j < |outcomes| + 1 ==> Recorded((outcomes + [o])[j], found[j], searches[j], s2)
  {
    forall j | 0 <= j < |outcomes| + 1 ensures Recorded((outcomes + [o])[j], found[j], searches[j], s2) {
      if j < |outcomes| {
        RecordedKept(outcomes[j], found[j], searches[j], s1, s2);
      }
    }
  }

  /** The product tables after one entry: its batch saved when the entry got past its save. */
  function StoreAfter(t: Tables, o: SearchOutcome, found: Result<seq<ProductData>, string>, now: int): (u: Tables)
    ensures !CreatedSession(o) || o.SaveFailed? ==> u == t
  {
    if (o.UpdateFailed? || o.Completed?) && found.Ok? && SaveAll(t, found.value, Some(o.session.id), now).Ok?
    then SaveAll(t, found.value, Some(o.session.id), now).value.0
    else t
  }

  /** The product tables after the entries so far, each saving against what the earlier ones left. */
  function AfterSaves(t: Tables, outcomes: seq<SearchOutcome>, found: seq<Result<seq<ProductData>, string>>, now: int): (u: Tables)
    requires |outcomes| <= |found|
    decreases |outcomes|
  {
    if outcomes == [] then t
    else
      var n := |outcomes| - 1;
      StoreAfter(AfterSaves(t, outcomes[..n], found, now), outcomes[n], found[n], now)
  }

  lemma AfterSavesStep(t: Tables, outcomes: seq<SearchOutcome>, o: SearchOutcome, found: seq<Result<seq<ProductData>, string>>, now: int)
    requires |outcomes| < |found|
    ensures AfterSaves(t, outcomes + [o], found, now) == StoreAfter(AfterSaves(t, outcomes, found, now), o, found[|outcomes|], now)
  {
    assert (outcomes + [o])[..|outcomes|] == outcomes;
  }

  /** An entry keeps the product tables consistent and only extends them. */
  lemma StoreAfterKeeps(t: Tables, o: SearchOutcome, found: Result<seq<ProductData>, string>, now: int)
    requires Consistent(t)
    ensures Consistent(StoreAfter(t, o, found, now)) && Extends(t, StoreAfter(t, o, found, now))
  {
    if (o.UpdateFailed? || o.Completed?) && found.Ok? && SaveAll(t, found.value, Some(o.session.id), now).Ok? {
      SaveAllKeeps(t, found.value, Some(o.session.id), now);
    } else {
      assert t.history[..|t.history|] == t.history;
    }
  }

  /**
   * The sweep keeps the product tables consistent and only extends them: no product row is
   * deleted or re-keyed and no history row is lost.
   */
  lemma {:induction false} AfterSavesKeeps(t: Tables, outcomes: seq<SearchOutcome>, found: seq<Result<seq<ProductData>, string>>, now: int)
    requires Consistent(t) && |outcomes| <= |found|
    ensures Consistent(AfterSaves(t, outcomes, found, now)) && Extends(t, AfterSaves(t, outcomes, found, now))
    decreases |outcomes|
  {
    if outcomes == [] {
      assert t.history[..|t.history|] == t.history;
    } else {
      var n := |outcomes| - 1;
      var mid := AfterSaves(t, outcomes[..n], found, now);
      AfterSavesKeeps(t, outcomes[..n], found, now);
      StoreAfterKeeps(mid, outcomes[n], found[n], now);
      ExtendsTrans(t, mid, AfterSaves(t, outcomes, found, now));
    }
  }

  /** Entries that created no session leave the product tables as they were. */
  lemma {:induction false} AfterSavesIdle(t: Tables, outcomes: seq<SearchOutcome>, found: seq<Result<seq<ProductData>, string>>, now: int)
    requires |outcomes| <= |found| && forall k :: 0 <= k < |outcomes| ==> !CreatedSession(outcomes[k])
    ensures AfterSaves(t, outcomes, found, now) == t
    decreases |outcomes|
  {
    if outcomes != [] {
      AfterSavesIdle(t, outcomes[..|outcomes| - 1], found, now);
    }
  }

  lemma PrefixKeeps<T>(a: seq<T>, b: seq<T>, x: T)
    requires a <= b && x in a
    ensures x in b
  {
    var i :| 0 <= i < |a| && a[i] == x;
    assert b[i] == x;
  }

  /** An entry's session was refused exactly when its search found products and the store refused the session. */
  predicate RefusedIff(o: SearchOutcome, found: Result<seq<ProductData>, string>, faults: StorageFaults) {
    o == SessionFailed <==> found.Ok? && found.value != [] && faults.create
  }

  lemma RefusedStep(outcomes: seq<SearchOutcome>, o: SearchOutcome, found: seq<Result<seq<ProductData>, string>>, faults: seq<StorageFaults>)
    requires |outcomes| < |found| && |found| == |faults|
    requires forall j :: 0 <= j < |outcomes| ==> RefusedIff(outcomes[j], found[j], faults[j])
    requires RefusedIff(o, found[|outcomes|], faults[|outcomes|])
    ensures forall j :: 0 <= j < |outcomes| + 1 ==> RefusedIff((outcomes + [o])[j], found[j], faults[j])
  {
  }

  lemma PrefixTrans<T>(a: seq<T>, b: seq<T>, c: seq<T>)
    requires a <= b && b <= c
    ensures a <= c
  {
    assert forall i :: 0 <= i < |a| ==> a[i] == b[i] == c[i];
  }

  /** The job body's exceptions are caught: a job ends completed or failed, never by raising. */
  datatype JobStatus = JobCompleted | JobFailed

  const PriceMonitoringHours := 4
  const CleanupDays := 90
  const SummarySessions := 5

  /** The settings as loaded: loading validates the daily execution time. */
  predicate Loaded(c: Config) {
    ValidateTimeFormat(c.dailyExecutionTime).Ok?
  }

  const WeeklyCleanup := Job("weekly_cleanup", "Limpeza Semanal", Cron(Some(0), 2, 0))
  const DailySummary := Job("daily_summary", "Resumo Diário", Cron(None, 18, 0))
  const PriceMonitoring := Job("price_monitoring", "Monitoramento de Preços", Interval(PriceMonitoringHours))

  /** The daily sweep's job, at the configured hour and minute, when scheduling is on. */
  function DailyScraping(c: Config): (jobs: seq<Job>)
    requires Loaded(c)
    ensures |jobs| == if c.enableScheduling then 1 else 0
    ensures forall j :: j in jobs ==>
      && j.id == "daily_scraping" && j.trigger.Cron? && j.trigger.dayOfWeek.None?
      && 0 <= j.trigger.hour <= 23 && 0 <= j.trigger.minute <= 59
  {
    TimeFormatBounds(c.dailyExecutionTime);
    var (hour, minute) := ParseTime(c.dailyExecutionTime).value;
    if c.enableScheduling then [Job("daily_scraping", "Scraping Diário Automático", Cron(None, hour, minute))] else []
  }

  /** The jobs `_setup_default_jobs` registers for these settings, in order. */
  function DefaultJobs(c: Config): (jobs: seq<Job>)
    requires Loaded(c)
  {
    DailyScraping(c) + [WeeklyCleanup] + (if c.sendDailySummary then [DailySummary] else []) + [PriceMonitoring]
  }

  /** The ids of the default jobs: the two conditional ones only when their setting is on. */
  lemma DefaultJobIds(c: Config)
    requires Loaded(c)
    ensures JobIds(DefaultJobs(c)) ==
      (if c.enableScheduling then {"daily_scraping"} else {}) + {"weekly_cleanup"}
      + (if c.sendDailySummary then {"daily_summary"} else {}) + {"price_monitoring"}
  {
    var daily := DailyScraping(c);
    var summary := if c.sendDailySummary then [DailySummary] else [];
    JobIdsAppend(daily, [WeeklyCleanup]);
    JobIdsAppend(daily + [WeeklyCleanup], summary);
    JobIdsAppend(daily + [WeeklyCleanup] + summary, [PriceMonitoring]);
    JobIdsSingle(WeeklyCleanup);
    JobIdsSingle(PriceMonitoring);
    if c.sendDailySummary {
      JobIdsSingle(DailySummary);
    }
    if c.enableScheduling {
      assert daily == [daily[0]] && daily[0] in daily;
      JobIdsSingle(daily[0]);
    }
  }

  /** `add_job` for each job in turn. */
  function WithJobs(jobs: seq<Job>, added: seq<Job>): (r: seq<Job>)
    decreases |added|
  {
    if added == [] then jobs else WithJobs(WithJob(jobs, added[0]), added[1..])
  }

  lemma {:induction false} WithJobsDistinct(jobs: seq<Job>, added: seq<Job>)
    requires DistinctIds(jobs)
    ensures DistinctIds(WithJobs(jobs, added))
    ensures JobIds(WithJobs(jobs, added)) == JobIds(jobs) + JobIds(added)
    decreases |added|
  {
    if added != [] {
      WithJobDistinct(jobs, added[0]);
      WithJobsDistinct(WithJob(jobs, added[0]), added[1..]);
    }
  }

  /**
   * The update that closes an entry's session: the products found, as many saved (one id per
   * record), success, completed now.
   */
  function CloseUpdate(n: nat, now: int): (u: SessionUpdate)
    ensures u.success == Some(true) && u.completedAt == Given(now)
    ensures u.productsFound == Some(n) && u.productsSaved == Some(n)
  {
    SessionUpdate(Some(n), Some(n), None, None, Some(true), Missing, Given(now))
  }

  class ScrapingScheduler {
    var jobs: seq<Job>
    const settings: Config
    const db: DatabaseManager

    ghost predicate Valid()
      reads this, db
    {
      DistinctIds(jobs) && db.Valid() && Loaded(settings)
    }

    constructor (settings: Config, db: DatabaseManager)
      requires db.Valid() && Loaded(settings)
      ensures Valid() && jobs == [] && this.settings == settings && this.db == db
    {
      this.settings := settings;
      this.db := db;
      jobs := [];
    }

    /** One `add_job` with `replace_existing=True`. */
    method AddJob(job: Job)
      requires Valid()
      modifies this
      ensures Valid()
      ensures jobs == WithJob(old(jobs), job)
      ensures JobIds(jobs) == JobIds(old(jobs)) + {job.id}
    {
      WithJobDistinct(jobs, job);
      jobs := WithJob(jobs, job);
    }

    /**
     * `_setup_default_jobs`: the daily sweep at the configured time when scheduling is on, the
     * weekly cleanup, the daily summary when it is on, and price monitoring every 4 hours.
     */
    method SetupDefaultJobs()
      requires Valid()
      modifies this
      ensures Valid()
      ensures jobs == WithJobs(old(jobs), DefaultJobs(settings))
      ensures JobIds(jobs) == JobIds(old(jobs)) + JobIds(DefaultJobs(settings))
    {
      WithJobsDistinct(jobs, DefaultJobs(settings));
      jobs := WithJobs(jobs, DefaultJobs(settings));
    }

    /** `remove_job`: `True` and the job gone when there was one of that id, else `False`. */
    method RemoveJob(id: string) returns (removed: bool)
      requires Valid()
      modifies this
      ensures Valid()
      ensures removed <==> id in JobIds(old(jobs))
      ensures jobs == WithoutId(old(jobs), id)
      ensures JobIds(jobs) == JobIds(old(jobs)) - {id}
    {
      removed := id in JobIds(jobs);
      WithoutIdDistinct(jobs, id);
      JobIdsWithout(jobs, id);
      jobs := WithoutId(jobs, id);
    }

    /**
     * One entry of `_daily_scraping_job`: nothing is written when the search raised or found
     * nothing; otherwise a session is created, the products saved under it and the session
     * updated, the first refused write ending the entry.
     */
    method RunSearch(config: SearchConfig, found: Result<seq<ProductData>, string>, faults: StorageFaults, now: int)
      returns (outcome: SearchOutcome)
      requires Valid()
      modifies db
      ensures Valid()
      ensures Fits(outcome, found, config)
      ensures CreatedSession(outcome) ==>
        outcome.session == NewSession(old(db.nextSessionId), Some("Agendado - " + config.term), config.site, Some(config.term), now)
      ensures |db.sessions| == |old(db.sessions)| + (if CreatedSession(outcome) then 1 else 0)
      ensures db.nextSessionId == old(db.nextSessionId) + (if CreatedSession(outcome) then 1 else 0)
      ensures old(db.sessions) <= db.sessions
      ensures Recorded(outcome, found, config, db.sessions)
      ensures db.emails == old(db.emails)
      ensures outcome == SessionFailed <==> found.Ok? && found.value != [] && faults.create
      ensures outcome.SaveFailed? <==>
        found.Ok? && found.value != [] && !faults.create
        && (faults.save || SaveAll(old(db.Store()), found.value, Some(old(db.nextSessionId)), now).Err?)
      ensures outcome.UpdateFailed? || outcome.Completed? ==> SaveAll(old(db.Store()), found.value, Some(outcome.session.id), now).Ok?
      ensures !CreatedSession(outcome) ==> db.Store() == old(db.Store())
      ensures db.Store() == StoreAfter(old(db.Store()), outcome, found, now)
    {
      if found.Err? {
        return ScrapeFailed;
      }
      var products := found.value;
      if products == [] {
        return NoProducts;
      }
      outcome := OpenAndSave(config, products, faults, now);
    }

    /** An entry whose search found products: open its session, then save and close. */
    method OpenAndSave(config: SearchConfig, products: seq<ProductData>, faults: StorageFaults, now: int)
      returns (outcome: SearchOutcome)
      requires Valid() && products != []
      modifies db
      ensures Valid()
      ensures outcome == SessionFailed <==> faults.create
      ensures outcome.SaveFailed? || outcome.UpdateFailed? || outcome.Completed? || outcome == SessionFailed
      ensures CreatedSession(outcome) ==>
        outcome.session == NewSession(old(db.nextSessionId), Some("Agendado - " + config.term), config.site, Some(config.term), now)
      ensures outcome.SaveFailed? ==> outcome.session in db.sessions
      ensures outcome.Completed? ==> outcome.products == products
      ensures |db.sessions| == |old(db.sessions)| + (if CreatedSession(outcome) then 1 else 0)
      ensures db.nextSessionId == old(db.nextSessionId) + (if CreatedSession(outcome) then 1 else 0)
      ensures old(db.sessions) <= db.sessions
      ensures db.emails == old(db.emails)
      ensures outcome.SaveFailed? <==>
        !faults.create && (faults.save || SaveAll(old(db.Store()), products, Some(old(db.nextSessionId)), now).Err?)
      ensures !CreatedSession(outcome) || outcome.SaveFailed? ==> db.Store() == old(db.Store())
      ensures outcome.UpdateFailed? || outcome.Completed? ==>
        && SaveAll(old(db.Store()), products, Some(outcome.session.id), now).Ok?
        && db.Store() == SaveAll(old(db.Store()), products, Some(outcome.session.id), now).value.0
    {
      ghost var before := db.sessions;
      var created := db.CreateScrapingSession(Some("Agendado - " + config.term), Some(config.site), Some(config.term), now, faults.create);
      if created.Err? {
        return SessionFailed;
      }
      var session := created.value;
      assert session in db.sessions;
      assert session.id == old(db.nextSessionId) && db.Store() == old(db.Store());
      outcome := SaveAndClose(session, products, faults, now);
      assert forall j :: 0 <= j < |before| ==> (before + [session])[j] == before[j];
      assert before == db.sessions[..|before|];
    }

    /** The rest of an entry once its session exists: save the products, then close the session. */
    method SaveAndClose(session: ScrapingSession, products: seq<ProductData>, faults: StorageFaults, now: int)
      returns (outcome: SearchOutcome)
      requires Valid()
      modifies db
      ensures Valid()
      ensures outcome == SaveFailed(session) || outcome == UpdateFailed(session) || outcome == Completed(session, products)
      ensures |db.sessions| == |old(db.sessions)| && db.nextSessionId == old(db.nextSessionId)
      ensures forall j :: 0 <= j < |old(db.sessions)| && old(db.sessions)[j].id != session.id ==> db.sessions[j] == old(db.sessions)[j]
      ensures !outcome.Completed? ==> db.sessions == old(db.sessions)
      ensures db.emails == old(db.emails)
      ensures outcome.SaveFailed? <==> faults.save || SaveAll(old(db.Store()), products, Some(session.id), now).Err?
      ensures outcome.SaveFailed? ==> db.Store() == old(db.Store())
      ensures !outcome.SaveFailed? ==> db.Store() == SaveAll(old(db.Store()), products, Some(session.id), now).value.0
      ensures outcome.UpdateFailed? <==> !outcome.SaveFailed? && faults.update && SessionIndex(old(db.sessions), session.id).Some?
      ensures outcome.Completed? && SessionIndex(old(db.sessions), session.id).Some? ==>
        var i := SessionIndex(old(db.sessions), session.id).value;
        db.sessions == old(db.sessions)[i := ApplySessionUpdate(old(db.sessions)[i], CloseUpdate(|products|, now)).value]
      ensures SessionIndex(old(db.sessions), session.id).None? ==> db.sessions == old(db.sessions)
    {
      var saved := db.SaveProducts(products, Some(session.id), now, faults.save);
      if saved.Err? {
        return SaveFailed(session);
      }
      ghost var before := db.sessions;
      ghost var index := SessionIndex(before, session.id);
      var update := SessionUpdate(Some(|products|), Some(|saved.value|), None, None, Some(true), Missing, Given(now));
      assert update == CloseUpdate(|products|, now);
      var updated := db.UpdateScrapingSession(session.id, update, faults.update);
      if updated.Err? {
        return UpdateFailed(session);
      }
      outcome := Completed(session, products);
    }

    /**
     * `_daily_scraping_job`: the three entries in order, each isolated from the others' failures,
     * then the product report when anything was collected and there are recipients.
     */
    method DailyScrapingJob(now: int, found: seq<Result<seq<ProductData>, string>>, faults: seq<StorageFaults>)
      returns (outcomes: seq<SearchOutcome>, allProducts: seq<ProductData>, reportSent: bool)
      requires Valid() && |found| == |DefaultSearches| && |faults| == |DefaultSearches|
      modifies db
      ensures Valid()
      ensures |outcomes| == |DefaultSearches|
      ensures forall k :: 0 <= k < |outcomes| ==> Fits(outcomes[k], found[k], DefaultSearches[k])
      ensures forall k :: 0 <= k < |outcomes| && outcomes[k].SaveFailed? ==> outcomes[k].session in db.sessions
      ensures old(db.sessions) <= db.sessions
      ensures |db.sessions| == |old(db.sessions)| + SessionsCreated(outcomes)
      ensures allProducts == Collected(outcomes)
      ensures reportSent <==> allProducts != [] && settings.emailRecipients != []
      ensures db.emails == old(db.emails)
      ensures forall k :: 0 <= k < |outcomes| ==> RefusedIff(outcomes[k], found[k], faults[k])
      ensures db.Store() == AfterSaves(old(db.Store()), outcomes, found, now)
    {
      outcomes, allProducts := RunSearches(DefaultSearches, found, faults, now);
      reportSent := allProducts != [] && settings.emailRecipients != [];
    }

    /** The loop over the sweep's entries. */
    method RunSearches(searches: seq<SearchConfig>, found: seq<Result<seq<ProductData>, string>>, faults: seq<StorageFaults>, now: int)
      returns (outcomes: seq<SearchOutcome>, allProducts: seq<ProductData>)
      requires Valid() && |found| == |searches| && |faults| == |searches|
      modifies db
      ensures Valid()
      ensures |outcomes| == |searches|
      ensures forall k :: 0 <= k < |outcomes| ==> Recorded(outcomes[k], found[k], searches[k], db.sessions)
      ensures old(db.sessions) <= db.sessions
      ensures |db.sessions| == |old(db.sessions)| + SessionsCreated(outcomes)
      ensures allProducts == Collected(outcomes)
      ensures db.emails == old(db.emails)
      ensures forall k :: 0 <= k < |outcomes| ==> RefusedIff(outcomes[k], found[k], faults[k])
      ensures db.Store() == AfterSaves(old(db.Store()), outcomes, found, now)
    {
      outcomes := [];
      allProducts := [];
      for k := 0 to |searches|
        invariant Valid()
        invariant |outcomes| == k
        invariant forall j :: 0 <= j < k ==> Recorded(outcomes[j], found[j], searches[j], db.sessions)
        invariant old(db.sessions) <= db.sessions
        invariant |db.sessions| == |old(db.sessions)| + SessionsCreated(outcomes)
        invariant allProducts == Collected(outcomes)
        invariant db.emails == old(db.emails)
        invariant forall j :: 0 <= j < k ==> RefusedIff(outcomes[j], found[j], faults[j])
        invariant db.Store() == AfterSaves(old(db.Store()), outcomes, found, now)
      {
        ghost var sessionsBefore := db.sessions;
        var outcome := RunSearch(searches[k], found[k], faults[k], now);
        AfterSavesStep(old(db.Store()), outcomes, outcome, found, now);
        RefusedStep(outcomes, outcome, found, faults);
        OutcomesStep(outcomes, outcome);
        RecordedStep(outcomes, outcome, found, searches, sessionsBefore, db.sessions);
        PrefixTrans(old(db.sessions), sessionsBefore, db.sessions);
        outcomes := outcomes + [outcome];
        if outcome.Completed? {
          allProducts := allProducts + outcome.products;
        }
      }
    }

    /** `_weekly_cleanup_job`: the store's cleanup with 90 days. */
    method WeeklyCleanupJob(now: int, storageFails: bool) returns (status: JobStatus)
      requires Valid()
      modifies db
      ensures Valid()
      ensures status == JobCompleted <==> !storageFails
      ensures db.products == old(db.products)
      ensures !storageFails ==>
        var cutoff := now - CleanupDays * SecondsPerDay;
        && db.history == RecentHistory(old(db.history), cutoff)
        && db.sessions == SessionsSince(old(db.sessions), cutoff)
        && db.emails == EmailsSince(old(db.emails), cutoff)
      ensures storageFails ==> db.history == old(db.history) && db.sessions == old(db.sessions) && db.emails == old(db.emails)
    {
      var r := db.CleanupOldData(now, CleanupDays, storageFails);
      status := if r.Ok? then JobCompleted else JobFailed;
    }

    /** `_daily_summary_job`: the 5 latest sessions, sent when there are recipients. */
    method DailySummaryJob() returns (recent: seq<ScrapingSession>, sent: bool)
      requires Valid()
      ensures recent == db.GetRecentSessions(SummarySessions)
      ensures |recent| <= SummarySessions
      ensures forall s, t :: s in recent && t in db.sessions && t !in recent ==> t.startedAt <= s.startedAt
      ensures multiset(recent) <= multiset(db.sessions)
      ensures sent <==> settings.emailRecipients != []
    {
      recent := db.GetRecentSessions(SummarySessions);
      sent := settings.emailRecipients != [];
    }

    /** `_price_monitoring_job`: the changes of the last 4 hours, an alert when there are any and recipients. */
    method PriceMonitoringJob(now: int) returns (changes: seq<Change>, alerted: bool)
      ensures changes == PriceChanges(db.history, db.products, now - PriceMonitoringHours * SecondsPerHour)
      ensures alerted <==> changes != [] && settings.emailRecipients != []
    {
      changes := db.GetPriceChanges(now, PriceMonitoringHours);
      alerted := changes != [] && settings.emailRecipients != [];
    }
  }

}
