/** Shared vocabulary of the travel-request screens: the rows of the
    `travel_requests`, `approval_workflow` and `notifications` tables, the
    status strings the screens write and compare, and the few sequence
    operations the database queries amount to. Dates are day numbers. */
module Domain {

  datatype Option<T> = None | Some(value: T)

  /** Every status value that appears in the screens and the alert job. */
  datatype Status =
    | Rascunho
    | AguardandoChefia
    | AguardandoSubsecretario
    | AguardandoDAD
    | Aprovado
    | Rejeitado
    | AguardandoPrestacaoDeContas
    | EmAtraso
    | Concluido

  /** One row of `travel_requests`. `dataIda`/`dataRetorno` are day numbers. */
  datatype TravelRecord = TravelRecord(
    id: string,
    userId: string,
    destino: string,
    dataIda: int,
    dataRetorno: int,
    justificativa: string,
    fonteRecurso: string,
    status: Status)

  /** The two buttons of the approver's modal. */
  datatype Decision = Approve | ReturnForCorrection

  /** One row of `approval_workflow`. */
  datatype WorkflowEntry = WorkflowEntry(
    travelId: string,
    aprovadorId: string,
    papelAprovador: string,
    acao: Decision,
    comentarios: string)

  /** One row of `notifications`. */
  datatype Notification = Notification(userId: string, mensagem: string)

  /** The signed-in user's profile as the approver screen reads it. */
  datatype Profile = Profile(id: string, cargo: string)

  function Min(a: int, b: int): int { if a <= b then a else b }
  function Max(a: int, b: int): int { if a <= b then b else a }

  /** JavaScript `s.substring(0, n)` for n >= 0: the first n characters, or
      the whole string when it is shorter. */
  function Take(s: string, n: nat): (r: string)
    ensures |r| == Min(n, |s|)
    ensures r <= s
  {
    if |s| <= n then s else s[..n]
  }

  /** The rows of `s` that satisfy `p`, in their original order: what a
      `select ... where p` returns from a table scan. */
  function Filter<T(!new)>(s: seq<T>, p: T -> bool): (r: seq<T>)
    ensures |r| <= |s|
    ensures forall x :: x in r <==> x in s && p(x)
    ensures forall i :: 0 <= i < |r| ==> p(r[i])
    ensures forall x :: multiset(r)[x] == if p(x) then multiset(s)[x] else 0
  {
    if s == [] then []
    else
      assert s == [s[0]] + s[1..];
      if p(s[0]) then [s[0]] + Filter(s[1..], p)
      else Filter(s[1..], p)
  }

  /** Filtering a concatenation filters each part and keeps them in order:
      a row of the first part never comes after a row of the second. */
  lemma {:induction false} FilterAppend<T(!new)>(s: seq<T>, t: seq<T>, p: T -> bool)
    ensures Filter(s + t, p) == Filter(s, p) + Filter(t, p)
  {
    if s == [] {
      assert s + t == t;
    } else {
      assert (s + t)[1..] == s[1..] + t;
      FilterAppend(s[1..], t, p);
    }
  }

  /** `update travel_requests set status = st where id = id`: every row with
      that id gets the new status; every other row and every other column is
      left alone; a missing id changes nothing. */
  function WithStatus(rows: seq<TravelRecord>, id: string, st: Status): (r: seq<TravelRecord>)
    ensures |r| == |rows|
    ensures forall i :: 0 <= i < |rows| && rows[i].id == id ==> r[i] == rows[i].(status := st)
    ensures forall i :: 0 <= i < |rows| && rows[i].id != id ==> r[i] == rows[i]
  {
    if rows == [] then []
    else
      var head := if rows[0].id == id then rows[0].(status := st) else rows[0];
      [head] + WithStatus(rows[1..], id, st)
  }

  /** An update keyed by an id absent from the table is a no-op. */
  lemma {:induction false} WithStatusMissingId(rows: seq<TravelRecord>, id: string, st: Status)
    requires forall i :: 0 <= i < |rows| ==> rows[i].id != id
    ensures WithStatus(rows, id, st) == rows
  {
    if rows != [] {
      WithStatusMissingId(rows[1..], id, st);
    }
  }

  /** After the update, every row carrying the id has exactly the new status. */
  lemma WithStatusSets(rows: seq<TravelRecord>, id: string, st: Status, r: TravelRecord)
    requires r in WithStatus(rows, id, st) && r.id == id
    ensures r.status == st
  {
    var w := WithStatus(rows, id, st);
    var i :| 0 <= i < |w| && w[i] == r;
    assert rows[i].id == id;
  }
}
