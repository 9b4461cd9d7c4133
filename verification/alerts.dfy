/** The scheduled alert batch: pick the trips whose accountability is still
    pending and whose return date was three days before today, and for each
    one store a notification for its traveller and report it. Days are
    whole day numbers; the query outcome and which notification inserts
    fail are inputs, because the batch never reads the insert results. */
module Alerts {
  import opened Domain
  import Database
  import Accountability

  /** How many days before today the selected return date lies. */
  const ALERT_OFFSET_DAYS: int := 3

  /** "Atenção, servidor ID-" */
  const MESSAGE_HEAD: string := "Aten\U{E7}\U{E3}o, servidor ID-"
  /** ". Faltam 2 dias para o fim do seu prazo legal de prestação de contas
      conforme Decreto 3.792/2024." */
  const MESSAGE_TAIL: string :=
    ". Faltam 2 dias para o fim do seu prazo legal de presta\U{E7}\U{E3}o de contas conforme Decreto 3.792/2024."

  /** The return date the batch looks for: today at midnight, three days
      back. */
  function TargetDay(today: int): (d: int)
    ensures d < today && today - d == ALERT_OFFSET_DAYS
  {
    today - ALERT_OFFSET_DAYS
  }

  /** The two equality filters of the query. */
  predicate IsDueForAlert(r: TravelRecord, today: int)
  {
    r.status == AguardandoPrestacaoDeContas && r.dataRetorno == TargetDay(today)
  }

  /** The query's rows, in table order: exactly the trips awaiting
      accountability that returned three days before today. */
  function SelectForAlert(rows: seq<TravelRecord>, today: int): (sel: seq<TravelRecord>)
    ensures |sel| <= |rows|
    ensures forall r :: r in sel <==>
      r in rows && r.status == AguardandoPrestacaoDeContas && r.dataRetorno == today - 3
  {
    Filter(rows, r => IsDueForAlert(r, today))
  }

  /** The message for a traveller: the fixed text around `ID-` and the
      first 8 characters of the user id. */
  function AlertMessage(userId: string): string
  {
    MESSAGE_HEAD + Take(userId, 8) + MESSAGE_TAIL
  }

  /** The message opens with the greeting, closes with the "2 days left"
      sentence, and names the traveller by a prefix of their user id: the
      first 8 characters, or all of a shorter id. */
  lemma AlertMessageShape(userId: string)
    ensures var m := AlertMessage(userId);
            && |m| == |MESSAGE_HEAD| + Min(8, |userId|) + |MESSAGE_TAIL|
            && m[..|MESSAGE_HEAD|] == MESSAGE_HEAD
            && m[|m| - |MESSAGE_TAIL|..] == MESSAGE_TAIL
            && m[|MESSAGE_HEAD|..|m| - |MESSAGE_TAIL|] <= userId
  {
    var name := Take(userId, 8);
    var m := AlertMessage(userId);
    assert m[|MESSAGE_HEAD|..|m| - |MESSAGE_TAIL|] == name;
  }

  /** The notification (and the reported alert) for one selected trip. */
  function Notice(r: TravelRecord): Notification
  {
    Notification(r.userId, AlertMessage(r.userId))
  }

  /** One notice per selected trip, in selection order. */
  function Notices(sel: seq<TravelRecord>): (ns: seq<Notification>)
    ensures |ns| == |sel|
    ensures forall i :: 0 <= i < |sel| ==> ns[i] == Notice(sel[i])
  {
    seq(|sel|, i requires 0 <= i < |sel| => Notice(sel[i]))
  }

  /** What the first `n` loop rounds leave in the notifications table: the
      notice of every round whose insert did not fail, in order. */
  function Delivered(ns: seq<Notification>, failed: set<nat>, n: nat): (ds: seq<Notification>)
    requires n <= |ns|
    ensures |ds| <= n
  {
    if n == 0 then []
    else Delivered(ns, failed, n - 1) + (if n - 1 in failed then [] else [ns[n - 1]])
  }

  /** The table receives the notice of every round among the first `n`
      whose insert did not fail, and nothing else. */
  lemma {:induction false} DeliveredMembers(ns: seq<Notification>, failed: set<nat>, n: nat)
    requires n <= |ns|
    ensures forall k :: 0 <= k < n && k !in failed ==> ns[k] in Delivered(ns, failed, n)
    ensures forall x :: x in Delivered(ns, failed, n) ==> exists k :: 0 <= k < n && k !in failed && x == ns[k]
  {
    if n > 0 {
      DeliveredMembers(ns, failed, n - 1);
    }
  }

  /** One more loop round adds its notice to the response, and to the
      table unless its insert fails. */
  lemma RoundStep(sel: seq<TravelRecord>, failed: set<nat>, i: nat)
    requires i < |sel|
    ensures Notices(sel)[..i + 1] == Notices(sel)[..i] + [Notice(sel[i])]
    ensures Delivered(Notices(sel), failed, i + 1) ==
      Delivered(Notices(sel), failed, i) + (if i in failed then [] else [Notice(sel[i])])
  {
  }

  /** How a run of the batch ends: the error response, the "no alerts"
      response, or the success response with its count and alerts. */
  datatype BatchResult = Failed | NoAlerts | Dispatched(count: nat, alerts: seq<Notification>)

  /** The loop of the batch: for each selected trip, in order, insert its
      notice unless that insert fails, and add it to the response whatever
      the insert did. */
  method SendAlerts(db: Database.Store, sel: seq<TravelRecord>, failedInserts: set<nat>)
    returns (alertsSent: seq<Notification>)
    modifies db
    ensures alertsSent == Notices(sel)
    ensures db.notifications == old(db.notifications) + Delivered(Notices(sel), failedInserts, |sel|)
    ensures db.requests == old(db.requests) && db.workflow == old(db.workflow)
  {
    alertsSent := [];
    var i := 0;
    while i < |sel|
      invariant 0 <= i <= |sel|
      invariant alertsSent == Notices(sel)[..i]
      invariant db.notifications == old(db.notifications) + Delivered(Notices(sel), failedInserts, i)
      invariant db.requests == old(db.requests) && db.workflow == old(db.workflow)
    {
      var n := Notice(sel[i]);
      RoundStep(sel, failedInserts, i);
      if i !in failedInserts {
        db.InsertNotification(n);
      }
      alertsSent := alertsSent + [n];
      i := i + 1;
    }
    assert Notices(sel)[..|sel|] == Notices(sel);
  }

  /** One run of the batch. A failed query reports the error and stores
      nothing; an empty selection reports that there is nothing to send.
      Otherwise every selected trip gets one alert in the response and one
      notification insert; the count is the number of selected trips
      whichever inserts failed. */
  method RunAlertBatch(db: Database.Store, today: int, queryFailed: bool, failedInserts: set<nat>)
    returns (res: BatchResult)
    modifies db
    ensures queryFailed ==> res == Failed && db.notifications == old(db.notifications)
    ensures !queryFailed && SelectForAlert(old(db.requests), today) == [] ==>
      res == NoAlerts && db.notifications == old(db.notifications)
    ensures !queryFailed && SelectForAlert(old(db.requests), today) != [] ==>
      var sel := SelectForAlert(old(db.requests), today);
      && res == Dispatched(|sel|, Notices(sel))
      && db.notifications == old(db.notifications) + Delivered(Notices(sel), failedInserts, |sel|)
    ensures db.requests == old(db.requests) && db.workflow == old(db.workflow)
  {
    if queryFailed {
      res := Failed;
      return;
    }
    var sel := SelectForAlert(db.requests, today);
    if sel == [] {
      res := NoAlerts;
      return;
    }
    var alertsSent := SendAlerts(db, sel, failedInserts);
    res := Dispatched(|alertsSent|, alertsSent);
  }

  /** When no insert fails, the table receives exactly the reported alerts. */
  lemma {:induction false} DeliveredWithoutFailures(ns: seq<Notification>, n: nat)
    requires n <= |ns|
    ensures Delivered(ns, {}, n) == ns[..n]
  {
    if n > 0 {
      DeliveredWithoutFailures(ns, n - 1);
      assert ns[..n] == ns[..n - 1] + [ns[n - 1]];
    }
  }

  /** When every insert fails, nothing is stored, yet the response still
      reports every selected trip. */
  lemma {:induction false} DeliveredAllFailing(ns: seq<Notification>, failed: set<nat>, n: nat)
    requires n <= |ns|
    requires forall i: nat :: i < n ==> i in failed
    ensures Delivered(ns, failed, n) == []
  {
    if n > 0 {
      DeliveredAllFailing(ns, failed, n - 1);
    }
  }

  /** Every selected trip's traveller is notified, and every notification
      goes to a selected trip's traveller with that traveller's message. */
  lemma NoticesAddressSelection(sel: seq<TravelRecord>)
    ensures forall r :: r in sel ==> Notice(r) in Notices(sel)
    ensures forall x :: x in Notices(sel) ==>
      exists r :: r in sel && x.userId == r.userId && x.mensagem == AlertMessage(r.userId)
  {
    forall r | r in sel
      ensures Notice(r) in Notices(sel)
    {
      var i :| 0 <= i < |sel| && sel[i] == r;
      assert Notices(sel)[i] == Notice(r);
    }
    forall x | x in Notices(sel)
      ensures exists r :: r in sel && x.userId == r.userId && x.mensagem == AlertMessage(r.userId)
    {
      var i :| 0 <= i < |Notices(sel)| && Notices(sel)[i] == x;
      assert sel[i] in sel;
    }
  }

  /** There is no duplicate guard: a run never changes the requests, so a
      second run on the same day selects the same trips and sends the same
      notices. With no failed inserts, every notice of the run (by
      `NoticesAddressSelection`, every selected traveller's) is then stored
      at least twice more than before the first run. */
  lemma TwoRunsDuplicate(before: seq<Notification>, ns: seq<Notification>, x: Notification)
    requires x in ns
    ensures var after := before + Delivered(ns, {}, |ns|) + Delivered(ns, {}, |ns|);
            multiset(after)[x] >= multiset(before)[x] + 2
  {
    DeliveredWithoutFailures(ns, |ns|);
    assert ns[..|ns|] == ns;
    assert multiset(before + ns + ns) == multiset(before) + multiset(ns) + multiset(ns);
  }

  /** Two runs of the job on the same day with no failed insert: every
      notice of the day is stored at least twice more than before. */
  method RunTwiceSameDay(db: Database.Store, today: int) returns (first: BatchResult, second: BatchResult)
    modifies db
    ensures first == second
    ensures forall x :: x in Notices(SelectForAlert(old(db.requests), today)) ==>
      multiset(db.notifications)[x] >= multiset(old(db.notifications))[x] + 2
  {
    ghost var before := db.notifications;
    ghost var ns := Notices(SelectForAlert(db.requests, today));
    first := RunAlertBatch(db, today, false, {});
    second := RunAlertBatch(db, today, false, {});
    forall x | x in ns
      ensures multiset(db.notifications)[x] >= multiset(before)[x] + 2
    {
      TwoRunsDuplicate(before, ns, x);
    }
  }

  /** The message says 2 days remain, but at midnight of the alert day
      the accountability screen counts 4 days left and shows a green badge. */
  lemma AlertDayOnScreen(r: TravelRecord, today: int)
    requires IsDueForAlert(r, today)
    ensures Accountability.DaysLeft(today * Accountability.DAY_MS, r.dataRetorno * Accountability.DAY_MS) == 4
    ensures Accountability.BadgeFor(r.status,
              Accountability.DaysLeft(today * Accountability.DAY_MS, r.dataRetorno * Accountability.DAY_MS))
            == Accountability.OnTime
  {
    Accountability.DaysLeftOnWholeDays(today, r.dataRetorno);
  }

  /** For the rest of the alert day, from just after midnight up to the
      next midnight, the screen counts 3 days left, still with a green
      badge, while the message says 2. */
  lemma AlertDayAfterMidnight(r: TravelRecord, today: int, nowMs: int)
    requires IsDueForAlert(r, today)
    requires today * Accountability.DAY_MS < nowMs <= (today + 1) * Accountability.DAY_MS
    ensures Accountability.DaysLeft(nowMs, r.dataRetorno * Accountability.DAY_MS) == 3
    ensures Accountability.BadgeFor(r.status,
              Accountability.DaysLeft(nowMs, r.dataRetorno * Accountability.DAY_MS))
            == Accountability.OnTime
  {
    var ret := r.dataRetorno * Accountability.DAY_MS;
    assert Accountability.DAY_MS * 3 < nowMs - ret <= Accountability.DAY_MS * 4;
    var d := Accountability.CeilDays(nowMs - ret);
    assert d == 4;
  }
}
