/** `generatePortariaText`: the authorization-document text. The stored
    template (or the built-in one when the lookup fails) has six
    placeholders, each replaced everywhere, ignoring case, in a fixed
    order. The template lookup and the already formatted dates are inputs. */
module Portaria {
  import opened Domain
  import opened Text

  /** The built-in template: "O Secretário de Estado da Fazenda, no uso de
      suas atribuições... resolve AUTORIZAR o deslocamento do servidor
      [Nome], matrícula [ID], para [Destino], no período de [Data Início] a
      [Data Fim], com ônus para [Fonte de Recurso]." It is written here as
      its seven fixed pieces with the six placeholders between them. */
  const FALLBACK_TEMPLATE: string := Join(FALLBACK_PIECES, PLACEHOLDERS)

  /** The fixed text of the built-in template, around its placeholders. */
  const FALLBACK_PIECES: seq<string> := [
    OPENING,
    ", matr\U{ED}cula ", ", para ", ", no per\U{ED}odo de ", " a ", ", com \U{F4}nus para ", "."]

  /** The opening words, up to the employee's name. */
  const OPENING: string := OPENING_START + OPENING_END
  const OPENING_START: string := "O Secret\U{E1}rio de Estado " + "da Fazenda, no uso de "
  const OPENING_END: string := "suas atribui\U{E7}\U{F5}es... " + "resolve AUTORIZAR o " + "deslocamento do servidor "

  /** "Servidor Não Identificado" */
  const UNIDENTIFIED: string := "Servidor N\U{E3}o Identificado"

  const PH_NOME: string := "[Nome]"
  const PH_ID: string := "[ID]"
  const PH_DESTINO: string := "[Destino]"
  /** "[Data Início]" */
  const PH_DATA_INICIO: string := "[Data In\U{ED}cio]"
  const PH_DATA_FIM: string := "[Data Fim]"
  const PH_FONTE: string := "[Fonte de Recurso]"

  /** The placeholders in the order they are replaced. */
  const PLACEHOLDERS: seq<string> := [PH_NOME, PH_ID, PH_DESTINO, PH_DATA_INICIO, PH_DATA_FIM, PH_FONTE]

  /** `pieces[0] + holes[0] + pieces[1] + ... + holes[n-1] + pieces[n]`. */
  function Join(pieces: seq<string>, holes: seq<string>): string
    requires |pieces| == |holes| + 1
    decreases |holes|
  {
    if holes == [] then pieces[0]
    else pieces[0] + (holes[0] + Join(pieces[1..], holes[1..]))
  }

  /** What the generator reads from a request and its requester's profile.
      `dataInicio` and `dataFim` are the dates as already formatted for
      display. */
  datatype PortariaRequest = PortariaRequest(
    id: string,
    destino: string,
    dataInicio: string,
    dataFim: string,
    fonteRecurso: string,
    nome: Option<string>,
    email: Option<string>)

  /** The stored template when the lookup returned a row, the built-in one
      when it errored or found nothing. */
  function ChooseTemplate(lookup: Option<string>): (t: string)
    ensures lookup.Some? ==> t == lookup.value
    ensures lookup.None? ==> t == FALLBACK_TEMPLATE
  {
    match lookup
    case Some(v) => v
    case None => FALLBACK_TEMPLATE
  }

  /** The registration number: the id's first 8 characters (all of a
      shorter id), upper-cased. */
  function Matricula(id: string): (m: string)
    ensures |m| == Min(8, |id|)
    ensures forall i :: 0 <= i < |m| ==> m[i] == Upper(id[i])
  {
    UpperString(Take(id, 8))
  }

  /** `email.split('@')[0]`: everything before the first `@`, or the whole
      address when it has none. */
  function LocalPart(email: string): (r: string)
    ensures r <= email && '@' !in r
    ensures |r| < |email| ==> email[|r|] == '@'
  {
    if email == [] || email[0] == '@' then []
    else [email[0]] + LocalPart(email[1..])
  }

  /** The employee's name: the profile's name when non-empty, else the
      e-mail's local part when non-empty, else the fixed placeholder name.
      It is never empty. */
  function ServerName(nome: Option<string>, email: Option<string>): (n: string)
    ensures n != []
    ensures nome.Some? && nome.value != [] ==> n == nome.value
    ensures (nome.None? || nome.value == []) && email.Some? && LocalPart(email.value) != [] ==>
      n == LocalPart(email.value)
    ensures (nome.None? || nome.value == []) && (email.None? || LocalPart(email.value) == []) ==>
      n == UNIDENTIFIED
  {
    if nome.Some? && nome.value != [] then nome.value
    else if email.Some? && LocalPart(email.value) != [] then LocalPart(email.value)
    else UNIDENTIFIED
  }

  /** `pat` occurs at position `i` of `s`, ignoring case. */
  predicate MatchAt(s: string, pat: string, i: nat)
  {
    i + |pat| <= |s| && forall j :: 0 <= j < |pat| ==> SameIgnoringCase(s[i + j], pat[j])
  }

  /** `s.replace(/pat/gi, rep)` for a literal pattern: scan from the left;
      at each case-insensitive occurrence emit `rep` and resume after the
      occurrence; the inserted text is not scanned again. */
  function ReplaceAll(s: string, pat: string, rep: string): string
    requires pat != []
    decreases |s|
  {
    if s == [] then []
    else if MatchAt(s, pat, 0) then rep + ReplaceAll(s[|pat|..], pat, rep)
    else [s[0]] + ReplaceAll(s[1..], pat, rep)
  }

  /** Dropping the first character shifts every occurrence by one. */
  lemma MatchShift(s: string, pat: string, i: nat)
    requires s != []
    ensures MatchAt(s[1..], pat, i) <==> MatchAt(s, pat, i + 1)
  {
    var t := s[1..];
    if MatchAt(t, pat, i) {
      forall j | 0 <= j < |pat|
        ensures SameIgnoringCase(s[(i + 1) + j], pat[j])
      {
        assert SameIgnoringCase(t[i + j], pat[j]);
      }
    }
    if MatchAt(s, pat, i + 1) {
      forall j | 0 <= j < |pat|
        ensures SameIgnoringCase(t[i + j], pat[j])
      {
        assert SameIgnoringCase(s[(i + 1) + j], pat[j]);
      }
    }
  }

  /** A text that differs from `pat` at position `i + j` has no occurrence
      of it at `i`. */
  lemma NoMatchAtDiff(s: string, pat: string, i: nat, j: nat)
    requires i + j < |s| && j < |pat| && !SameIgnoringCase(s[i + j], pat[j])
    ensures !MatchAt(s, pat, i)
  {
  }

  /** A text without any occurrence of the pattern comes back unchanged. */
  lemma {:induction false} ReplaceNoMatch(s: string, pat: string, rep: string)
    requires pat != []
    requires forall i: nat :: !MatchAt(s, pat, i)
    ensures ReplaceAll(s, pat, rep) == s
  {
    if s != [] {
      assert !MatchAt(s, pat, 0);
      forall i: nat
        ensures !MatchAt(s[1..], pat, i)
      {
        MatchShift(s, pat, i);
      }
      ReplaceNoMatch(s[1..], pat, rep);
    }
  }

  /** No occurrence before `k` in `s` means none before `k - 1` once the
      first character is dropped. */
  lemma NoEarlierMatchShift(s: string, pat: string, k: nat)
    requires s != [] && 0 < k
    requires forall i: nat :: i < k ==> !MatchAt(s, pat, i)
    ensures forall i: nat :: i < k - 1 ==> !MatchAt(s[1..], pat, i)
  {
    forall i: nat | i < k - 1
      ensures !MatchAt(s[1..], pat, i)
    {
      MatchShift(s, pat, i);
    }
  }

  /** Re-attaching the first character to the kept prefix. */
  lemma ConsPrefix(s: string, k: nat, rep: string, rest: string)
    requires 0 < k <= |s|
    ensures [s[0]] + (s[1..][..k - 1] + rep + rest) == s[..k] + rep + rest
  {
    assert [s[0]] + s[1..][..k - 1] == s[..k];
  }

  /** The text before the first occurrence is kept as it is, that
      occurrence becomes `rep`, and the scan resumes right after it. */
  lemma {:induction false} ReplaceFirstMatch(s: string, pat: string, rep: string, k: nat)
    requires pat != []
    requires MatchAt(s, pat, k)
    requires forall i: nat :: i < k ==> !MatchAt(s, pat, i)
    ensures ReplaceAll(s, pat, rep) == s[..k] + rep + ReplaceAll(s[k + |pat|..], pat, rep)
  {
    if k == 0 {
      assert s[..0] == [];
      StepAt(s, pat, rep);
    } else {
      var t := s[1..];
      assert !MatchAt(s, pat, 0);
      assert ReplaceAll(s, pat, rep) == [s[0]] + ReplaceAll(t, pat, rep);
      MatchShift(s, pat, k - 1);
      NoEarlierMatchShift(s, pat, k);
      ReplaceFirstMatch(t, pat, rep, k - 1);
      assert t[k - 1 + |pat|..] == s[k + |pat|..];
      ConsPrefix(s, k, rep, ReplaceAll(s[k + |pat|..], pat, rep));
    }
  }

  /** `generatePortariaText`: choose the template, then replace the six
      placeholders in their fixed order. */
  function GeneratePortariaText(lookup: Option<string>, req: PortariaRequest): string
  {
    var t0 := ChooseTemplate(lookup);
    var t1 := ReplaceAll(t0, PH_NOME, ServerName(req.nome, req.email));
    var t2 := ReplaceAll(t1, PH_ID, Matricula(req.id));
    var t3 := ReplaceAll(t2, PH_DESTINO, req.destino);
    var t4 := ReplaceAll(t3, PH_DATA_INICIO, req.dataInicio);
    var t5 := ReplaceAll(t4, PH_DATA_FIM, req.dataFim);
    ReplaceAll(t5, PH_FONTE, req.fonteRecurso)
  }

  /** No placeholder occurs in `s`, in any letter case. */
  ghost predicate NoPlaceholders(s: string)
  {
    && (forall i: nat :: !MatchAt(s, PH_NOME, i))
    && (forall i: nat :: !MatchAt(s, PH_ID, i))
    && (forall i: nat :: !MatchAt(s, PH_DESTINO, i))
    && (forall i: nat :: !MatchAt(s, PH_DATA_INICIO, i))
    && (forall i: nat :: !MatchAt(s, PH_DATA_FIM, i))
    && (forall i: nat :: !MatchAt(s, PH_FONTE, i))
  }

  /** A stored template without placeholders is returned as it is. */
  lemma TemplateWithoutPlaceholders(t: string, req: PortariaRequest)
    requires NoPlaceholders(t)
    ensures GeneratePortariaText(Some(t), req) == t
  {
    ReplaceNoMatch(t, PH_NOME, ServerName(req.nome, req.email));
    ReplaceNoMatch(t, PH_ID, Matricula(req.id));
    ReplaceNoMatch(t, PH_DESTINO, req.destino);
    ReplaceNoMatch(t, PH_DATA_INICIO, req.dataInicio);
    ReplaceNoMatch(t, PH_DATA_FIM, req.dataFim);
    ReplaceNoMatch(t, PH_FONTE, req.fonteRecurso);
  }

  /** Only '[' itself equals '[' ignoring case. */
  lemma BracketOnlyMatchesItself(c: char)
    ensures c != '[' ==> !SameIgnoringCase(c, '[')
  {
  }

  /** A text without '[' holds no occurrence of a pattern starting with
      '['. */
  lemma NoBracketNoMatch(s: string, pat: string)
    requires pat != [] && pat[0] == '[' && '[' !in s
    ensures forall i: nat :: !MatchAt(s, pat, i)
  {
    forall i: nat
      ensures !MatchAt(s, pat, i)
    {
      if i < |s| {
        BracketOnlyMatchesItself(s[i]);
        NoMatchAtDiff(s, pat, i, 0);
      }
    }
  }

  /** Every placeholder starts with '[', so a text without '[' has none. */
  lemma NoBracketNoPlaceholders(s: string)
    requires '[' !in s
    ensures NoPlaceholders(s)
  {
    NoBracketNoMatch(s, PH_NOME);
    NoBracketNoMatch(s, PH_ID);
    NoBracketNoMatch(s, PH_DESTINO);
    NoBracketNoMatch(s, PH_DATA_INICIO);
    NoBracketNoMatch(s, PH_DATA_FIM);
    NoBracketNoMatch(s, PH_FONTE);
  }

  /** Replacing skips a leading text without '[' unchanged. */
  lemma {:induction false} SkipPlain(a: string, x: string, pat: string, rep: string)
    requires pat != [] && pat[0] == '[' && '[' !in a
    ensures ReplaceAll(a + x, pat, rep) == a + ReplaceAll(x, pat, rep)
  {
    if a == [] {
      assert a + x == x;
    } else {
      BracketOnlyMatchesItself(a[0]);
      assert !SameIgnoringCase((a + x)[0 + 0], pat[0]);
      assert (a + x)[1..] == a[1..] + x;
      SkipPlain(a[1..], x, pat, rep);
    }
  }

  /** An occurrence at the very start is replaced and the scan resumes
      after it. */
  lemma ReplaceAtStart(x: string, pat: string, rep: string)
    requires pat != []
    ensures ReplaceAll(pat + x, pat, rep) == rep + ReplaceAll(x, pat, rep)
  {
    assert MatchAt(pat + x, pat, 0) by {
      forall j | 0 <= j < |pat|
        ensures SameIgnoringCase((pat + x)[0 + j], pat[j])
      {
      }
    }
    assert (pat + x)[|pat|..] == x;
  }

  /** A text that differs from `pat` at position `j` does not start with
      an occurrence of it. */
  lemma NoMatchAtStart(s: string, pat: string, j: nat)
    requires j < |s| && j < |pat| && !SameIgnoringCase(s[j], pat[j])
    ensures !MatchAt(s, pat, 0)
  {
    assert s[0 + j] == s[j];
  }

  /** Without an occurrence at the start, the first character is kept. */
  lemma StepOver(s: string, pat: string, rep: string)
    requires pat != [] && s != [] && !MatchAt(s, pat, 0)
    ensures ReplaceAll(s, pat, rep) == [s[0]] + ReplaceAll(s[1..], pat, rep)
  {
  }

  /** An occurrence at the start is replaced, and the scan resumes after
      it. */
  lemma StepAt(s: string, pat: string, rep: string)
    requires pat != [] && MatchAt(s, pat, 0)
    ensures ReplaceAll(s, pat, rep) == rep + ReplaceAll(s[|pat|..], pat, rep)
  {
  }

  /** `h` opens with '[' and has no other '['. */
  predicate BracketShaped(h: string)
  {
    h != [] && h[0] == '[' && '[' !in h[1..]
  }

  /** `h` and `pat` differ, ignoring case, at a position both have. */
  predicate DiffersFrom(h: string, pat: string)
  {
    exists j :: 0 <= j < |h| && j < |pat| && !SameIgnoringCase(h[j], pat[j])
  }

  /** A different bracketed placeholder is not an occurrence of `pat`, and
      nothing inside it is one either: it is skipped unchanged. */
  lemma SkipOtherPlaceholder(h: string, x: string, pat: string, rep: string)
    requires pat != [] && pat[0] == '['
    requires BracketShaped(h) && DiffersFrom(h, pat)
    ensures ReplaceAll(h + x, pat, rep) == h + ReplaceAll(x, pat, rep)
  {
    var j :| 0 <= j < |h| && j < |pat| && !SameIgnoringCase(h[j], pat[j]);
    var hx := h + x;
    assert hx[j] == h[j];
    NoMatchAtStart(hx, pat, j);
    StepOver(hx, pat, rep);
    assert hx[1..] == h[1..] + x;
    SkipPlain(h[1..], x, pat, rep);
    assert [h[0]] + h[1..] == h;
  }

  /** `hs` with every hole equal to `pat` replaced by `rep`. */
  function Subst(hs: seq<string>, pat: string, rep: string): (r: seq<string>)
    ensures |r| == |hs|
    ensures forall m :: 0 <= m < |hs| ==> r[m] == (if hs[m] == pat then rep else hs[m])
  {
    if hs == [] then []
    else [if hs[0] == pat then rep else hs[0]] + Subst(hs[1..], pat, rep)
  }

  /** One replacement pass over a text made of pieces without '[' and holes
      that are either the placeholder itself, text without '[', or another
      bracketed placeholder: exactly the holes equal to the placeholder are
      replaced, and the pieces and other holes stay as they are. */
  lemma {:induction false} PassOverJoin(pieces: seq<string>, hs: seq<string>, pat: string, rep: string)
    requires |pieces| == |hs| + 1
    requires pat != [] && pat[0] == '['
    requires forall i :: 0 <= i < |pieces| ==> '[' !in pieces[i]
    requires forall i :: 0 <= i < |hs| ==>
      hs[i] == pat || '[' !in hs[i] || (BracketShaped(hs[i]) && DiffersFrom(hs[i], pat))
    ensures ReplaceAll(Join(pieces, hs), pat, rep) == Join(pieces, Subst(hs, pat, rep))
    decreases |hs|
  {
    if hs == [] {
      SkipPlain(pieces[0], [], pat, rep);
      assert pieces[0] + [] == pieces[0];
    } else {
      var rest := Join(pieces[1..], hs[1..]);
      SkipPlain(pieces[0], hs[0] + rest, pat, rep);
      if hs[0] == pat {
        ReplaceAtStart(rest, pat, rep);
      } else if '[' !in hs[0] {
        SkipPlain(hs[0], rest, pat, rep);
      } else {
        SkipOtherPlaceholder(hs[0], rest, pat, rep);
      }
      PassOverJoin(pieces[1..], hs[1..], pat, rep);
      var r := Subst(hs, pat, rep);
      assert r[1..] == Subst(hs[1..], pat, rep);
    }
  }

  /** Each placeholder opens with its only '['. */
  lemma PlaceholdersBracketed()
    ensures forall i :: 0 <= i < |PLACEHOLDERS| ==> BracketShaped(PLACEHOLDERS[i])
  {
    assert PH_NOME[1..] == "Nome]" && PH_ID[1..] == "ID]" && PH_DESTINO[1..] == "Destino]";
    assert PH_DATA_INICIO[1..] == "Data In\U{ED}cio]" && PH_DATA_FIM[1..] == "Data Fim]";
    assert PH_FONTE[1..] == "Fonte de Recurso]";
  }

  /** A position at which placeholder `i` and the earlier placeholder `k`
      differ: the letter after the bracket, except for "[Destino]" against
      the two dates (position 2) and the two dates against each other
      (position 6). */
  function DiffIndex(i: nat, k: nat): nat
  {
    if i == 4 && k == 3 then 6
    else if (i == 3 || i == 4) && k == 2 then 2
    else 1
  }

  /** Placeholder `i` differs, ignoring case, from every placeholder `k`
      replaced before it, at position `DiffIndex(i, k)`. */
  lemma PlaceholdersDiffer()
    ensures forall i, k :: 0 <= k < i < |PLACEHOLDERS| ==>
      var j := DiffIndex(i, k);
      j < |PLACEHOLDERS[i]| && j < |PLACEHOLDERS[k]| && !SameIgnoringCase(PLACEHOLDERS[i][j], PLACEHOLDERS[k][j])
  {
    forall i, k | 0 <= k < i < |PLACEHOLDERS|
      ensures var j := DiffIndex(i, k);
        j < |PLACEHOLDERS[i]| && j < |PLACEHOLDERS[k]| && !SameIgnoringCase(PLACEHOLDERS[i][j], PLACEHOLDERS[k][j])
    {
      if i == 4 && k == 3 {
        assert PLACEHOLDERS[i][6] == 'F' && PLACEHOLDERS[k][6] == 'I';
      } else if (i == 3 || i == 4) && k == 2 {
        assert PLACEHOLDERS[i][2] == 'a' && PLACEHOLDERS[k][2] == 'e';
      } else {
        assert PLACEHOLDERS[i][1] in "IDF" && PLACEHOLDERS[k][1] in "NID";
        assert PLACEHOLDERS[i][1] != PLACEHOLDERS[k][1];
      }
    }
  }

  /** Each placeholder is bracketed, and each differs, ignoring case, from
      every placeholder replaced before it. */
  lemma PlaceholderShapes()
    ensures forall i :: 0 <= i < |PLACEHOLDERS| ==> BracketShaped(PLACEHOLDERS[i])
    ensures forall i, k :: 0 <= k < i < |PLACEHOLDERS| ==> DiffersFrom(PLACEHOLDERS[i], PLACEHOLDERS[k])
  {
    PlaceholdersBracketed();
    PlaceholdersDiffer();
    forall i, k | 0 <= k < i < |PLACEHOLDERS|
      ensures DiffersFrom(PLACEHOLDERS[i], PLACEHOLDERS[k])
    {
      var j := DiffIndex(i, k);
      assert !SameIgnoringCase(PLACEHOLDERS[i][j], PLACEHOLDERS[k][j]);
    }
  }

  /** The six values, in the order of `PLACEHOLDERS`. */
  function Values(req: PortariaRequest): (v: seq<string>)
    ensures |v| == |PLACEHOLDERS|
  {
    [ServerName(req.nome, req.email), Matricula(req.id), req.destino, req.dataInicio, req.dataFim, req.fonteRecurso]
  }

  /** None of the request's values contains '['. */
  predicate PlainValues(req: PortariaRequest)
  {
    && '[' !in ServerName(req.nome, req.email) && '[' !in req.id && '[' !in req.destino
    && '[' !in req.dataInicio && '[' !in req.dataFim && '[' !in req.fonteRecurso
  }

  /** Upper-casing never produces '[' from another character. */
  lemma MatriculaPlain(id: string)
    requires '[' !in id
    ensures '[' !in Matricula(id)
  {
    var m := Matricula(id);
    forall i | 0 <= i < |m|
      ensures m[i] != '['
    {
      BracketOnlyMatchesItself(id[i]);
    }
  }

  /** The holes after the first `k` passes: the first `k` values, then the
      placeholders still to be replaced. */
  function Partial(req: PortariaRequest, k: nat): (hs: seq<string>)
    requires k <= |PLACEHOLDERS|
    ensures |hs| == |PLACEHOLDERS|
    ensures forall i :: 0 <= i < |hs| ==> hs[i] == if i < k then Values(req)[i] else PLACEHOLDERS[i]
  {
    Values(req)[..k] + PLACEHOLDERS[k..]
  }

  /** No value contains '['. */
  lemma ValuesPlain(req: PortariaRequest)
    requires PlainValues(req)
    ensures forall i :: 0 <= i < |Values(req)| ==> '[' !in Values(req)[i]
  {
    MatriculaPlain(req.id);
  }

  /** Before pass `k`, the `k`-th hole is the only one equal to the
      `k`-th placeholder, and every other hole may be skipped by it. */
  lemma HolesBeforePass(req: PortariaRequest, k: nat)
    requires PlainValues(req) && k < |PLACEHOLDERS|
    ensures forall i :: 0 <= i < |PLACEHOLDERS| ==> (Partial(req, k)[i] == PLACEHOLDERS[k] <==> i == k)
    ensures forall i :: 0 <= i < |PLACEHOLDERS| ==>
      Partial(req, k)[i] == PLACEHOLDERS[k] || '[' !in Partial(req, k)[i] ||
      (BracketShaped(Partial(req, k)[i]) && DiffersFrom(Partial(req, k)[i], PLACEHOLDERS[k]))
  {
    var hs := Partial(req, k);
    var pat := PLACEHOLDERS[k];
    ValuesPlain(req);
    PlaceholderShapes();
    assert pat[0] == '[';
    forall i | 0 <= i < |hs|
      ensures hs[i] == pat <==> i == k
      ensures hs[i] == pat || '[' !in hs[i] || (BracketShaped(hs[i]) && DiffersFrom(hs[i], pat))
    {
      if i < k {
        assert hs[i] == Values(req)[i];
      } else {
        assert hs[i] == PLACEHOLDERS[i];
        if i > k {
          var j :| 0 <= j < |hs[i]| && j < |pat| && !SameIgnoringCase(hs[i][j], pat[j]);
        }
      }
    }
  }

  /** Before the first pass the holes are the placeholders; after the last
      they are the values. */
  lemma PartialEnds(req: PortariaRequest)
    ensures Partial(req, 0) == PLACEHOLDERS
    ensures Partial(req, |PLACEHOLDERS|) == Values(req)
  {
  }

  /** Pass `k` replaces exactly the `k`-th hole. */
  lemma PassK(pieces: seq<string>, req: PortariaRequest, k: nat)
    requires |pieces| == |PLACEHOLDERS| + 1
    requires forall i :: 0 <= i < |pieces| ==> '[' !in pieces[i]
    requires PlainValues(req) && k < |PLACEHOLDERS|
    ensures ReplaceAll(Join(pieces, Partial(req, k)), PLACEHOLDERS[k], Values(req)[k]) ==
            Join(pieces, Partial(req, k + 1))
  {
    var hs := Partial(req, k);
    var pat := PLACEHOLDERS[k];
    var v := Values(req)[k];
    HolesBeforePass(req, k);
    PassOverJoin(pieces, hs, pat, v);
    var r := Subst(hs, pat, v);
    var next := Partial(req, k + 1);
    forall i | 0 <= i < |r|
      ensures r[i] == next[i]
    {
      assert r[i] == (if hs[i] == pat then v else hs[i]);
    }
    assert r == next;
  }

  /** Passes `k` to 5 of the generator, applied to `t`. */
  function Passes(t: string, req: PortariaRequest, k: nat): string
    requires k <= |PLACEHOLDERS|
    decreases |PLACEHOLDERS| - k
  {
    if k == |PLACEHOLDERS| then t
    else Passes(ReplaceAll(t, PLACEHOLDERS[k], Values(req)[k]), req, k + 1)
  }

  /** The generator is the six passes in order. */
  lemma GenerateIsPasses(t: string, req: PortariaRequest)
    ensures GeneratePortariaText(Some(t), req) == Passes(t, req, 0)
  {
    var v := Values(req);
    var t1 := ReplaceAll(t, PH_NOME, v[0]);
    var t2 := ReplaceAll(t1, PH_ID, v[1]);
    var t3 := ReplaceAll(t2, PH_DESTINO, v[2]);
    var t4 := ReplaceAll(t3, PH_DATA_INICIO, v[3]);
    var t5 := ReplaceAll(t4, PH_DATA_FIM, v[4]);
    var t6 := ReplaceAll(t5, PH_FONTE, v[5]);
    assert Passes(t6, req, 6) == t6;
    assert Passes(t5, req, 5) == t6;
    assert Passes(t4, req, 4) == t6;
    assert Passes(t3, req, 3) == t6;
    assert Passes(t2, req, 2) == t6;
    assert Passes(t1, req, 1) == t6;
  }

  /** From pass `k` on, the passes fill in the remaining holes. */
  lemma {:induction false} PassesFill(pieces: seq<string>, req: PortariaRequest, k: nat)
    requires |pieces| == |PLACEHOLDERS| + 1
    requires forall i :: 0 <= i < |pieces| ==> '[' !in pieces[i]
    requires PlainValues(req) && k <= |PLACEHOLDERS|
    ensures Passes(Join(pieces, Partial(req, k)), req, k) == Join(pieces, Values(req))
    decreases |PLACEHOLDERS| - k
  {
    if k == |PLACEHOLDERS| {
      PartialEnds(req);
    } else {
      PassK(pieces, req, k);
      PassesFill(pieces, req, k + 1);
    }
  }

  /** A stored template made of six placeholders, in their order, between
      pieces of text without '[', comes out as the same pieces with the
      employee's name, registration number, destination, start and end
      dates and funding source in place, provided none of those contains
      '['. */
  lemma TemplateFilled(pieces: seq<string>, req: PortariaRequest)
    requires |pieces| == |PLACEHOLDERS| + 1
    requires forall i :: 0 <= i < |pieces| ==> '[' !in pieces[i]
    requires PlainValues(req)
    ensures GeneratePortariaText(Some(Join(pieces, PLACEHOLDERS)), req) ==
            Join(pieces, [ServerName(req.nome, req.email), Matricula(req.id), req.destino,
                          req.dataInicio, req.dataFim, req.fonteRecurso])
  {
    PartialEnds(req);
    GenerateIsPasses(Join(pieces, PLACEHOLDERS), req);
    PassesFill(pieces, req, 0);
  }

  lemma OpeningStartPlain() ensures '[' !in OPENING_START {}
  lemma OpeningEndPlain() ensures '[' !in OPENING_END {}

  /** The fixed text of the built-in template holds no '['. */
  lemma FallbackPiecesPlain()
    ensures forall i :: 0 <= i < |FALLBACK_PIECES| ==> '[' !in FALLBACK_PIECES[i]
  {
    OpeningStartPlain();
    OpeningEndPlain();
  }

  /** When the lookup fails, the document is the built-in sentence with the
      six values in place. */
  lemma FallbackFilled(req: PortariaRequest)
    requires PlainValues(req)
    ensures GeneratePortariaText(None, req) ==
            Join(FALLBACK_PIECES, [ServerName(req.nome, req.email), Matricula(req.id), req.destino,
                                   req.dataInicio, req.dataFim, req.fonteRecurso])
  {
    FallbackPiecesPlain();
    TemplateFilled(FALLBACK_PIECES, req);
  }

  /** The registration number of the id "abcdefghij". */
  lemma MatriculaExample()
    ensures Matricula("abcdefghij") == "ABCDEFGH"
  {
    var m := Matricula("abcdefghij");
    assert Take("abcdefghij", 8) == "abcdefgh";
    forall i | 0 <= i < 8
      ensures m[i] == "ABCDEFGH"[i]
    {
      var c := "abcdefgh"[i];
      assert m[i] == Upper(c);
      assert 'a' <= c <= 'h' && "ABCDEFGH"[i] as int == c as int - 32;
    }
  }

  /** The last four passes leave a text without placeholders alone. */
  lemma LastPassesKeep(t: string, req: PortariaRequest)
    requires NoPlaceholders(t)
    ensures ReplaceAll(ReplaceAll(ReplaceAll(ReplaceAll(t, PH_DESTINO, req.destino),
              PH_DATA_INICIO, req.dataInicio), PH_DATA_FIM, req.dataFim), PH_FONTE, req.fonteRecurso) == t
  {
    ReplaceNoMatch(t, PH_DESTINO, req.destino);
    ReplaceNoMatch(t, PH_DATA_INICIO, req.dataInicio);
    ReplaceNoMatch(t, PH_DATA_FIM, req.dataFim);
    ReplaceNoMatch(t, PH_FONTE, req.fonteRecurso);
  }

  /** The `[Nome]` pass turns "[NOME]" into the name "[Id]". */
  lemma NamePassExample()
    ensures ReplaceAll("[NOME]", PH_NOME, "[Id]") == "[Id]"
  {
    ReplaceFirstMatch("[NOME]", PH_NOME, "[Id]", 0);
    assert "[NOME]"[6..] == [];
  }

  /** The `[ID]` pass turns "[Id]" into the registration number. */
  lemma IdPassExample()
    ensures ReplaceAll("[Id]", PH_ID, "ABCDEFGH") == "ABCDEFGH"
  {
    ReplaceFirstMatch("[Id]", PH_ID, "ABCDEFGH", 0);
    assert "[Id]"[4..] == [];
  }

  /** The order matters: a name that itself reads "[Id]" is inserted for
      "[NOME]" and then replaced by the registration number, because the
      `[ID]` pass runs after the `[Nome]` pass and ignores case. */
  lemma EarlierValueIsRescanned()
    ensures GeneratePortariaText(Some("[NOME]"),
              PortariaRequest("abcdefghij", "Bel\U{E9}m", "10/01/2025", "15/01/2025", "Tesouro", Some("[Id]"), None))
            == "ABCDEFGH"
  {
    var req := PortariaRequest("abcdefghij", "Bel\U{E9}m", "10/01/2025", "15/01/2025", "Tesouro", Some("[Id]"), None);
    assert ServerName(req.nome, req.email) == "[Id]";
    NamePassExample();
    var t1 := ReplaceAll("[NOME]", PH_NOME, ServerName(req.nome, req.email));
    assert t1 == "[Id]";
    MatriculaExample();
    IdPassExample();
    var t2 := ReplaceAll(t1, PH_ID, Matricula(req.id));
    assert t2 == "ABCDEFGH";
    NoBracketNoPlaceholders(t2);
    LastPassesKeep(t2, req);
  }
}
