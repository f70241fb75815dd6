/** When RPCChamberQuality books and fills: the booked flag init_ and the
    lumi counter lumiCounter_, stepped at the end of every lumi section and
    once at the end of the job. */
module Lifecycle {
  import opened Histograms
  import opened Naming
  import opened QualityClient

  /** The client's mutable state besides the store. */
  datatype Session = Session(counter: int, init: bool)

  /** As the constructor leaves it. */
  const Start := Session(0, false)

  /** The session and the store after a checkpoint. */
  datatype Checkpoint = Checkpoint(session: Session, store: Store)

  /** What one end of lumi section does. */
  datatype Plan = Plan(book: bool, fill: bool)

  /** Online, the first end of lumi books and sets the counter to the
      prescale; a fill follows whenever the counter is a multiple of the
      prescale (C++ and Euclidean remainders agree on being zero). A
      prescale of 0 would be a modulo by zero. */
  function LumiPlan(c: Config, counter: int): (p: Plan)
    requires Online(c) ==> c.prescale != 0
    ensures !Online(c) ==> p == Plan(false, false)
    ensures Online(c) ==> (p.book <==> counter == 0)
    ensures Online(c) && counter == 0 ==> p.fill
    ensures Online(c) && counter != 0 ==> (p.fill <==> counter % c.prescale == 0)
  {
    if !Online(c) then Plan(false, false)
    else
      var k := if counter == 0 then c.prescale else counter;
      Plan(counter == 0, k % c.prescale == 0)
  }

  /** The counter after one end of lumi section: every call increments it,
      after the first online call has set it to the prescale. */
  function NextCounter(c: Config, counter: int): int {
    (if Online(c) && counter == 0 then c.prescale else counter) + 1
  }

  /** The store a fill starts from: booked first when the plan says so. */
  function BookedIf(c: Config, book: bool, s: Store): Store {
    if book then Book(c, s) else s
  }

  /** What fillMonitorElements needs of its store: the overview exists when
      the gate is open. */
  predicate FillReady(c: Config, s: Store) {
    GateOpen(c, s) ==> OverviewName(c) in s
  }

  /** dqmEndLuminosityBlock */
  function EndLumi(c: Config, sess: Session, s: Store): (r: Checkpoint)
    requires Online(c) ==> c.prescale != 0
    requires LumiPlan(c, sess.counter).fill && !LumiPlan(c, sess.counter).book ==> FillReady(c, s)
    ensures r.session.counter == NextCounter(c, sess.counter)
    ensures var p := LumiPlan(c, sess.counter);
      && (!p.book && !p.fill ==> r.store == s && r.session.init == sess.init)
      && (p.fill ==> r.store == FillMonitorElements(c, BookedIf(c, p.book, s)))
      && (p.book ==> r.session.init)
      && (p.fill && GateOpen(c, BookedIf(c, p.book, s)) ==> r.session.init)
      && (r.session.init ==> sess.init || p.book || p.fill)
    ensures r.store.Keys >= s.Keys
  {
    var p := LumiPlan(c, sess.counter);
    var booked := BookedIf(c, p.book, s);
    var init := sess.init || p.book;
    if p.fill then
      assert p.book ==> OverviewName(c) in booked by {
        BookingProvidesFillNames(c, s);
      }
      Checkpoint(Session(NextCounter(c, sess.counter), init || GateOpen(c, booked)), FillMonitorElements(c, booked))
    else
      Checkpoint(Session(NextCounter(c, sess.counter), init), booked)
  }

  /** The counter after n ends of lumi sections from the constructor's 0. */
  function CounterAfter(c: Config, n: nat): int {
    if n == 0 then 0 else NextCounter(c, CounterAfter(c, n - 1))
  }

  /** The online cadence: with prescale P > 0, the first end of lumi books,
      no later one does, and the fills fall on lumi sections 1, 1 + P,
      1 + 2P, ... (call n, counted from 0, fills exactly when P divides n). */
  lemma {:induction false} Cadence(c: Config, n: nat)
    requires Online(c) && c.prescale > 0
    ensures CounterAfter(c, n) == if n == 0 then 0 else c.prescale + n
    ensures LumiPlan(c, CounterAfter(c, n)).book <==> n == 0
    ensures LumiPlan(c, CounterAfter(c, n)).fill <==> n % c.prescale == 0
  {
    if n > 0 {
      Cadence(c, n - 1);
      var k := c.prescale + n;
      assert k % c.prescale == n % c.prescale by {
        ShiftMod(n, c.prescale);
      }
    }
  }

  lemma PositiveFactor(y: int, p: int)
    requires p > 0 && y * p > 0
    ensures y > 0
  {
  }

  /** Quotient and remainder are unique. */
  lemma ModUnique(a: int, p: int, q: int, r: int)
    requires p > 0 && a == q * p + r && 0 <= r < p
    ensures a % p == r
  {
    var q', r' := a / p, a % p;
    assert a == q' * p + r';
    assert (q - q' + 1) * p == r' - r + p;
    assert (q' - q + 1) * p == r - r' + p;
    PositiveFactor(q - q' + 1, p);
    PositiveFactor(q' - q + 1, p);
  }

  lemma ShiftMod(n: int, p: int)
    requires p > 0
    ensures (p + n) % p == n % p
  {
    ModUnique(p + n, p, n / p + 1, n % p);
  }

  /** Offline or disabled, ends of lumi sections only count. */
  lemma {:induction false} NoLumiWorkOffline(c: Config, n: nat)
    requires !Online(c)
    ensures CounterAfter(c, n) == n
    ensures LumiPlan(c, CounterAfter(c, n)) == Plan(false, false)
  {
    if n > 0 {
      NoLumiWorkOffline(c, n - 1);
    }
  }

  /** What the online run keeps true between lumi sections: once the
      counter has left 0 the overview is booked. */
  predicate OnlineInvariant(c: Config, cp: Checkpoint) {
    cp.session.counter >= 0 && (cp.session.counter != 0 ==> OverviewName(c) in cp.store)
  }

  /** n ends of lumi sections in a row, each on the store the last one left.
      Online with a positive prescale the overview is always there when a
      fill needs it, so the run needs nothing of the store it starts from. */
  function RunLumis(c: Config, cp: Checkpoint, n: nat): (r: Checkpoint)
    requires Online(c) && c.prescale > 0
    requires OnlineInvariant(c, cp)
    ensures OnlineInvariant(c, r)
    ensures r.session.counter == if n == 0 then cp.session.counter else (if cp.session.counter == 0 then c.prescale else cp.session.counter) + n
    ensures cp.session.init ==> r.session.init
    decreases n
  {
    if n == 0 then cp
    else
      BookingProvidesFillNames(c, cp.store);
      var next := EndLumi(c, cp.session, cp.store);
      assert OverviewName(c) in next.store;
      RunLumis(c, next, n - 1)
  }

  /** A run from the constructor's session follows the cadence and has
      booked after its first lumi section. */
  lemma RunFromStart(c: Config, s: Store, n: nat)
    requires Online(c) && c.prescale > 0
    ensures RunLumis(c, Checkpoint(Start, s), n).session.counter == CounterAfter(c, n)
    ensures n > 0 ==> RunLumis(c, Checkpoint(Start, s), n).session.init
  {
    Cadence(c, n);
    if n > 0 {
      BookingProvidesFillNames(c, s);
      var next := EndLumi(c, Start, s);
      assert RunLumis(c, Checkpoint(Start, s), n) == RunLumis(c, next, n - 1);
    }
  }

  /** dqmEndJob */
  function EndJob(c: Config, sess: Session, s: Store): (r: Checkpoint)
    requires c.enable && sess.init ==> FillReady(c, s)
    ensures r.session.counter == sess.counter
    ensures !c.enable ==> r == Checkpoint(sess, s)
    ensures c.enable && c.offline ==> r.session.init && r.store == FillMonitorElements(c, BookedIf(c, !sess.init, s))
    ensures c.enable && !c.offline && !sess.init ==> r == Checkpoint(sess, s)
    ensures c.enable && sess.init ==> r.store == FillMonitorElements(c, s)
  {
    if !c.enable then Checkpoint(sess, s)
    else
      var book := c.offline && !sess.init;
      var booked := BookedIf(c, book, s);
      var init := sess.init || book;
      if init then
        assert book ==> OverviewName(c) in booked by {
          BookingProvidesFillNames(c, s);
        }
        Checkpoint(Session(sess.counter, init || GateOpen(c, booked)), FillMonitorElements(c, booked))
      else Checkpoint(sess, booked)
  }

  /** A booked store run through a fill with the gate open: the barrel row
      of the overview sums to 1 and so do the endcap rows when there are
      disks; with no disks the endcap rows stay 0. */
  lemma FillAfterBooking(c: Config, s: Store)
    requires GateOpen(c, Book(c, s))
    ensures var ov := FillMonitorElements(c, Book(c, s))[OverviewName(c)];
      && (forall r :: r == Barrel || c.disks > 0 ==> RowSum(ov, RegionIndex(r) + 1) == 1.0)
      && (c.disks <= 0 ==> forall x :: Get(ov, Cell(x, 1)) == 0.0 && Get(ov, Cell(x, 3)) == 0.0)
  {
    forall r | r == Barrel || c.disks > 0
      ensures RowSum(FillMonitorElements(c, Book(c, s))[OverviewName(c)], RegionIndex(r) + 1) == 1.0
    {
      BookedRowSumsToOne(c, s, r);
    }
    if c.disks <= 0 {
      NoDisksNoEndcapRows(c, s);
    }
  }

  /** After booking, a region with bins to sweep gets a row summing to 1. */
  lemma BookedRowSumsToOne(c: Config, s: Store, r: Region)
    requires GateOpen(c, Book(c, s))
    requires r == Barrel || c.disks > 0
    ensures RowSum(FillMonitorElements(c, Book(c, s))[OverviewName(c)], RegionIndex(r) + 1) == 1.0
  {
    BookingProvidesFillNames(c, s);
    RowSumsToOne(c, Book(c, s), r);
  }

  /** After booking with no disks, both endcap rows stay 0. */
  lemma NoDisksNoEndcapRows(c: Config, s: Store)
    requires GateOpen(c, Book(c, s))
    requires c.disks <= 0
    ensures var ov := FillMonitorElements(c, Book(c, s))[OverviewName(c)];
      forall x :: Get(ov, Cell(x, 1)) == 0.0 && Get(ov, Cell(x, 3)) == 0.0
  {
    var b := Book(c, s);
    BookingProvidesFillNames(c, s);
    var t := FillMonitorElements(c, b);
    FillSummary(c, b, EndcapNegative);
    FillSummary(c, b, EndcapPositive);
    FillOverview(c, b);
    forall x: int
      ensures Get(t[OverviewName(c)], Cell(x, 1)) == 0.0 && Get(t[OverviewName(c)], Cell(x, 3)) == 0.0
    {
      assert Fraction(c, t, Cell(x, 1)) == 0.0;
      assert Fraction(c, t, Cell(x, 3)) == 0.0;
    }
  }

  /** An offline job that never filled before ends by booking and filling
      once; with the gate open its overview is normalised as above. */
  lemma OfflineJob(c: Config, s: Store)
    requires c.enable && c.offline
    requires GateOpen(c, Book(c, s))
    ensures var r := EndJob(c, Start, s);
      && r.session.init
      && RowSum(r.store[OverviewName(c)], RegionIndex(Barrel) + 1) == 1.0
  {
    BookedRowSumsToOne(c, s, Barrel);
  }
}
