/** The accountability screen: the deadline count shown next to each pending
    trip, its late / near-due / on-time badge, the list of the user's trips
    awaiting accountability, the attached file list and the submission that
    closes a trip. Instants are milliseconds, dates at midnight are whole
    multiples of a day. */
module Accountability {
  import opened Domain
  import Database

  /** 1000 * 60 * 60 * 24. */
  const DAY_MS: int := 86400000
  /** The statutory window, 5 working days counted as 7 calendar days. */
  const DEADLINE_DAYS: int := 7

  function Abs(x: int): nat { if x < 0 then -x else x }

  /** `Math.ceil(ms / DAY_MS)` for a non-negative duration: the least whole
      number of days that covers it. */
  function CeilDays(ms: nat): (d: nat)
    ensures DAY_MS * d >= ms
    ensures DAY_MS * d < ms + DAY_MS
  {
    (ms + DAY_MS - 1) / DAY_MS
  }

  /** `calculateDaysLeft`: the window minus the number of days, rounded up,
      between now and the return instant, in either direction. It never
      exceeds the window and reaches it only at the return instant itself. */
  function DaysLeft(nowMs: int, returnMs: int): (r: int)
    ensures r <= DEADLINE_DAYS
    ensures r == DEADLINE_DAYS <==> nowMs == returnMs
  {
    DEADLINE_DAYS - CeilDays(Abs(nowMs - returnMs))
  }

  /** For instants at midnight (day numbers times a day) the count is the
      window minus the distance in days. */
  lemma DaysLeftOnWholeDays(today: int, returnDay: int)
    ensures DaysLeft(today * DAY_MS, returnDay * DAY_MS) == DEADLINE_DAYS - Abs(today - returnDay)
  {
    var k := Abs(today - returnDay);
    assert Abs(today * DAY_MS - returnDay * DAY_MS) == DAY_MS * k;
    var d := CeilDays(DAY_MS * k);
    assert d == k;
  }

  /** Any instant later on the return day already counts a whole day: the
      count is 6, not 7. */
  lemma DaysLeftDuringReturnDay(nowMs: int, returnMs: int)
    requires returnMs < nowMs <= returnMs + DAY_MS
    ensures DaysLeft(nowMs, returnMs) == DEADLINE_DAYS - 1
  {
    var d := CeilDays(nowMs - returnMs);
    assert 0 < d < 2;
  }

  /** Because of the absolute value, the same distance before the return
      instant costs as much as after it. */
  lemma DaysLeftSymmetric(returnMs: int, offset: int)
    ensures DaysLeft(returnMs + offset, returnMs) == DaysLeft(returnMs - offset, returnMs)
  {
  }

  /** From the return instant on, the count only goes down as time passes. */
  lemma DaysLeftDecreasesAfterReturn(returnMs: int, t1: int, t2: int)
    requires returnMs <= t1 <= t2
    ensures DaysLeft(t2, returnMs) <= DaysLeft(t1, returnMs)
  {
    var d1 := CeilDays(t1 - returnMs);
    var d2 := CeilDays(t2 - returnMs);
    assert DAY_MS * d2 > DAY_MS * d1 - DAY_MS;
  }

  /** Before the return instant, the count goes up as time passes. */
  lemma DaysLeftIncreasesBeforeReturn(returnMs: int, t1: int, t2: int)
    requires t1 <= t2 <= returnMs
    ensures DaysLeft(t1, returnMs) <= DaysLeft(t2, returnMs)
  {
    var d1 := CeilDays(returnMs - t1);
    var d2 := CeilDays(returnMs - t2);
    assert DAY_MS * d1 > DAY_MS * d2 - DAY_MS;
  }

  /** The colour of the badge beside a pending trip. */
  datatype Badge = Late | NearDue | OnTime

  /** `isLate`: the stored status says late, or the count went negative. */
  predicate IsLate(st: Status, daysLeft: int)
  {
    st == EmAtraso || daysLeft < 0
  }

  /** Red when late; otherwise amber when at most 2 days are left; green
      otherwise. */
  function BadgeFor(st: Status, daysLeft: int): (b: Badge)
    ensures b == Late <==> IsLate(st, daysLeft)
    ensures b == NearDue ==> 0 <= daysLeft <= 2 && st != EmAtraso
    ensures b == OnTime ==> daysLeft > 2 && st != EmAtraso
  {
    if IsLate(st, daysLeft) then Late
    else if daysLeft <= 2 then NearDue
    else OnTime
  }

  /** The badge of a trip not yet marked late, in terms of the distance
      between now and its return: red past 7 days, amber past 4 days and up
      to 7, green up to 4 days. */
  lemma BadgeByDistance(st: Status, nowMs: int, returnMs: int)
    requires st != EmAtraso
    ensures var b := BadgeFor(st, DaysLeft(nowMs, returnMs));
            var dist := Abs(nowMs - returnMs);
            && (b == Late <==> dist > 7 * DAY_MS)
            && (b == NearDue <==> 4 * DAY_MS < dist <= 7 * DAY_MS)
            && (b == OnTime <==> dist <= 4 * DAY_MS)
  {
    var dist := Abs(nowMs - returnMs);
    var d := CeilDays(dist);
    assert d > 7 <==> dist > 7 * DAY_MS;
    assert d >= 5 <==> dist > 4 * DAY_MS;
  }

  /** At midnight three days after the return date the screen shows 4 days
      left and a green badge; ten days after, -3 and a red badge. */
  lemma BadgeScenarios(returnDay: int)
    ensures DaysLeft((returnDay + 3) * DAY_MS, returnDay * DAY_MS) == 4
    ensures BadgeFor(AguardandoPrestacaoDeContas, DaysLeft((returnDay + 3) * DAY_MS, returnDay * DAY_MS)) == OnTime
    ensures DaysLeft((returnDay + 10) * DAY_MS, returnDay * DAY_MS) == -3
    ensures BadgeFor(AguardandoPrestacaoDeContas, DaysLeft((returnDay + 10) * DAY_MS, returnDay * DAY_MS)) == Late
  {
    DaysLeftOnWholeDays(returnDay + 3, returnDay);
    DaysLeftOnWholeDays(returnDay + 10, returnDay);
  }

  /** The rows the screen lists for a user. */
  predicate AwaitsAccountability(r: TravelRecord, userId: string)
  {
    r.userId == userId && (r.status == AguardandoPrestacaoDeContas || r.status == EmAtraso)
  }

  /** `fetchRequests`' query: the user's trips awaiting accountability or
      already late, in table order. */
  function ListedFor(rows: seq<TravelRecord>, userId: string): (r: seq<TravelRecord>)
    ensures forall x :: x in r <==>
      x in rows && x.userId == userId && (x.status == AguardandoPrestacaoDeContas || x.status == EmAtraso)
  {
    Filter(rows, (x: TravelRecord) => AwaitsAccountability(x, userId))
  }

  /** The three checkboxes; `devolucao` is the optional refund receipt. */
  datatype Checklist = Checklist(bilhetes: bool, relatorio: bool, devolucao: bool)

  const EMPTY_CHECKLIST: Checklist := Checklist(false, false, false)

  /** The checkbox a click lands on. */
  datatype ChecklistItem = Bilhetes | Relatorio | Devolucao

  /** Whether a checkbox is ticked. */
  function Ticked(c: Checklist, item: ChecklistItem): bool
  {
    match item
    case Bilhetes => c.bilhetes
    case Relatorio => c.relatorio
    case Devolucao => c.devolucao
  }

  /** `{ ...checklist, item: checked }`: the clicked box takes the new
      state and the other two keep theirs. */
  function WithItem(c: Checklist, item: ChecklistItem, checked: bool): (d: Checklist)
    ensures Ticked(d, item) == checked
    ensures forall other :: other != item ==> Ticked(d, other) == Ticked(c, other)
  {
    match item
    case Bilhetes => c.(bilhetes := checked)
    case Relatorio => c.(relatorio := checked)
    case Devolucao => c.(devolucao := checked)
  }

  /** Which guard of `handleSubmit` stops a submission, if any. */
  datatype SubmitVerdict = NothingSelected | ChecklistIncomplete | NoFiles | Ready(id: string)

  /** `handleSubmit`'s guards in order: a selection (an empty id is falsy),
      both mandatory checklist items, at least one file. */
  function CheckSubmission(selected: Option<string>, c: Checklist, fileCount: nat): (v: SubmitVerdict)
    ensures v.Ready? <==> selected.Some? && selected.value != [] && c.bilhetes && c.relatorio && fileCount > 0
    ensures v.Ready? ==> selected == Some(v.id)
  {
    if selected.None? || selected.value == [] then NothingSelected
    else if !c.bilhetes || !c.relatorio then ChecklistIncomplete
    else if fileCount == 0 then NoFiles
    else Ready(selected.value)
  }

  /** The refund receipt never decides anything. */
  lemma RefundReceiptNeverRequired(selected: Option<string>, c: Checklist, fileCount: nat, b: bool)
    ensures CheckSubmission(selected, c.(devolucao := b), fileCount) == CheckSubmission(selected, c, fileCount)
  {
  }

  /** A successful submission sets the submitted trip to `Concluido` and
      leaves every row of another trip exactly as it was. */
  lemma SubmissionTouchesOnlySelected(rows: seq<TravelRecord>, id: string, i: nat)
    requires i < |rows|
    ensures var after := WithStatus(rows, id, Concluido);
            |after| == |rows| &&
            (rows[i].id == id ==> after[i].status == Concluido && after[i].(status := rows[i].status) == rows[i]) &&
            (rows[i].id != id ==> after[i] == rows[i])
  {
  }

  /** The component state of the accountability screen. */
  class AccountabilityForm {
    const userId: string
    var requests: seq<TravelRecord>
    var selectedReq: Option<string>
    var checklist: Checklist
    var files: seq<string>
    var loading: bool

    constructor (userId: string)
      ensures this.userId == userId
      ensures requests == [] && selectedReq == None && checklist == EMPTY_CHECKLIST
      ensures files == [] && loading
    {
      this.userId := userId;
      requests := [];
      selectedReq := None;
      checklist := EMPTY_CHECKLIST;
      files := [];
      loading := true;
    }

    /** `fetchRequests`: on success the list is replaced by the query's
        rows and a single row is selected automatically; a failed query
        leaves list and selection alone. Loading ends either way. */
    method FetchRequests(db: Database.Store, queryFailed: bool)
      modifies this
      ensures queryFailed ==> requests == old(requests) && selectedReq == old(selectedReq)
      ensures !queryFailed ==> requests == ListedFor(db.requests, userId)
      ensures !queryFailed && |requests| == 1 ==> selectedReq == Some(requests[0].id)
      ensures !queryFailed && |requests| != 1 ==> selectedReq == old(selectedReq)
      ensures checklist == old(checklist) && files == old(files) && !loading
    {
      if !queryFailed {
        var data := ListedFor(db.requests, userId);
        requests := data;
        if |data| == 1 {
          selectedReq := Some(data[0].id);
        }
      }
      loading := false;
    }

    /** Clicking a trip in the list selects it. */
    method SelectRequest(id: string)
      modifies this
      ensures selectedReq == Some(id)
      ensures requests == old(requests) && checklist == old(checklist) && files == old(files)
      ensures loading == old(loading)
    {
      selectedReq := Some(id);
    }

    /** `handleFileUpload`: the picked files are appended after the ones
        already chosen. */
    method AddFiles(picked: seq<string>)
      modifies this
      ensures files == old(files) + picked
      ensures requests == old(requests) && selectedReq == old(selectedReq)
      ensures checklist == old(checklist) && loading == old(loading)
    {
      files := files + picked;
    }

    /** The "Remover" button of the i-th file: only that entry goes. */
    method RemoveFile(i: nat)
      modifies this
      ensures i < |old(files)| ==> files == old(files)[..i] + old(files)[i + 1..]
      ensures i >= |old(files)| ==> files == old(files)
      ensures requests == old(requests) && selectedReq == old(selectedReq)
      ensures checklist == old(checklist) && loading == old(loading)
    {
      if i < |files| {
        files := files[..i] + files[i + 1..];
      }
    }

    /** A checkbox's `onChange`: only that box changes. */
    method ToggleItem(item: ChecklistItem, checked: bool)
      modifies this
      ensures checklist == WithItem(old(checklist), item, checked)
      ensures requests == old(requests) && selectedReq == old(selectedReq)
      ensures files == old(files) && loading == old(loading)
    {
      checklist := WithItem(checklist, item, checked);
    }

    /** `handleSubmit`: when a guard fails nothing changes; otherwise the
        selected trip's status becomes `Concluido` and the form is cleared,
        unless the update fails, which leaves everything as it was. */
    method Submit(db: Database.Store, updateFailed: bool) returns (v: SubmitVerdict, submitted: bool)
      modifies this, db
      ensures v == CheckSubmission(old(selectedReq), old(checklist), |old(files)|)
      ensures submitted <==> v.Ready? && !updateFailed
      ensures submitted ==> db.requests == WithStatus(old(db.requests), v.id, Concluido)
      ensures submitted ==> selectedReq == None && checklist == EMPTY_CHECKLIST && files == []
      ensures !submitted ==> db.requests == old(db.requests)
      ensures !submitted ==> selectedReq == old(selectedReq) && checklist == old(checklist) && files == old(files)
      ensures db.workflow == old(db.workflow) && db.notifications == old(db.notifications)
      ensures requests == old(requests) && loading == old(loading)
    {
      v := CheckSubmission(selectedReq, checklist, |files|);
      submitted := false;
      if v.Ready? && !updateFailed {
        db.UpdateStatus(v.id, Concluido);
        selectedReq := None;
        checklist := EMPTY_CHECKLIST;
        files := [];
        submitted := true;
      }
    }
  }

  /** A session on the screen: select a trip, attach files, tick the two
      mandatory boxes and submit. The submission goes through, and the
      trip is closed. */
  method TickedChecklistSubmits(id: string, picked: seq<string>) returns (v: SubmitVerdict, submitted: bool)
    requires id != [] && picked != []
    ensures v == Ready(id) && submitted
  {
    var form := new AccountabilityForm("u1");
    form.SelectRequest(id);
    form.AddFiles(picked);
    form.ToggleItem(Bilhetes, true);
    form.ToggleItem(Relatorio, true);
    assert form.checklist.bilhetes && form.checklist.relatorio;
    var db := new Database.Store([]);
    v, submitted := form.Submit(db, false);
  }
}
