/** The report filter (App.tsx:224-231): an alert stays when its plate, its
    operator and its contract each contain the corresponding filter text,
    both sides lower-cased. */
module AlertFilter {
  import opened Text
  import opened Types
  import Seqs

  /** The three filter inputs. */
  datatype Filters = Filters(placa: string, operador: string, contrato: string)

  /** The filters as the session starts and as "clear filters" leaves them. */
  const NoFilters := Filters("", "", "")

  /** `field.toLowerCase().includes(filter.toLowerCase())`. */
  predicate FieldMatches(field: string, filter: string) {
    Contains(ToLower(field), ToLower(filter))
  }

  /** The conjunction of the three field tests. */
  predicate Matches(f: Filters, a: Alert): (m: bool)
    ensures f.placa == [] && f.operador == [] && f.contrato == [] ==> m
    ensures m ==> |f.placa| <= |a.placa| && |f.operador| <= |a.operador| && |f.contrato| <= |a.contrato|
  {
    FieldMatches(a.placa, f.placa) && FieldMatches(a.operador, f.operador) && FieldMatches(a.contrato, f.contrato)
  }

  /** `filteredAlerts`: the alerts that match, in their original order. */
  function FilterAlerts(alerts: seq<Alert>, f: Filters): (r: seq<Alert>)
    ensures forall a :: a in r <==> a in alerts && Matches(f, a)
    ensures forall a :: a in alerts ==> multiset(r)[a] == if Matches(f, a) then multiset(alerts)[a] else 0
    ensures Seqs.IsSubsequence(r, alerts)
  {
    if |alerts| == 0 then [] else Seqs.Filter(alerts, a => Matches(f, a))
  }

  // ---------------------------------------------------------------------
  // Properties

  /** The empty filter text is contained in every field. */
  lemma EmptyFilterMatches(field: string)
    ensures FieldMatches(field, [])
  {
    assert OccursAt(ToLower(field), [], 0);
  }

  /** With every filter empty, nothing is filtered out. */
  lemma NoFiltersKeepAll(alerts: seq<Alert>)
    ensures FilterAlerts(alerts, NoFilters) == alerts
  {
    forall a | a in alerts ensures Matches(NoFilters, a) {
      EmptyFilterMatches(a.placa);
      EmptyFilterMatches(a.operador);
      EmptyFilterMatches(a.contrato);
    }
    if |alerts| > 0 {
      Seqs.FilterAll(alerts, a => Matches(NoFilters, a));
    }
  }

  /** The test ignores the case of the filter text: a filter typed in
      capitals keeps the same alerts. */
  lemma FilterCaseInsensitive(field: string, filter: string)
    ensures FieldMatches(field, ToUpper(filter)) <==> FieldMatches(field, filter)
  {
    assert ToLower(ToUpper(filter)) == ToLower(filter);
  }

  /** Lower-casing keeps prefixes. */
  lemma ToLowerPrefix(s: string, t: string)
    requires s <= t
    ensures ToLower(s) <= ToLower(t)
  {
    assert ToLower(t)[..|s|] == ToLower(s);
  }

  /** A field that contains a text contains every prefix of it. */
  lemma ContainsPrefix(s: string, t: string, u: string)
    requires u <= t
    requires Contains(s, t)
    ensures Contains(s, u)
  {
    var i :| OccursAt(s, t, i);
    assert s[i..i + |u|] == t[..|u|];
    assert OccursAt(s, u, i);
  }

  /** The filters `g` extend the filters `f` when each of `g`'s texts
      starts with `f`'s: what typing further into the inputs does. */
  predicate Extends(g: Filters, f: Filters) {
    f.placa <= g.placa && f.operador <= g.operador && f.contrato <= g.contrato
  }

  /** Typing more into a filter never brings back an alert: the result
      narrows. */
  lemma FilterNarrows(alerts: seq<Alert>, f: Filters, g: Filters)
    requires Extends(g, f)
    ensures forall a :: a in FilterAlerts(alerts, g) ==> a in FilterAlerts(alerts, f)
  {
    forall a | a in FilterAlerts(alerts, g) ensures Matches(f, a) {
      ToLowerPrefix(f.placa, g.placa);
      ToLowerPrefix(f.operador, g.operador);
      ToLowerPrefix(f.contrato, g.contrato);
      ContainsPrefix(ToLower(a.placa), ToLower(g.placa), ToLower(f.placa));
      ContainsPrefix(ToLower(a.operador), ToLower(g.operador), ToLower(f.operador));
      ContainsPrefix(ToLower(a.contrato), ToLower(g.contrato), ToLower(f.contrato));
    }
  }

  /** Filtering an already filtered list with the same filters changes
      nothing. */
  lemma FilterIdempotent(alerts: seq<Alert>, f: Filters)
    ensures FilterAlerts(FilterAlerts(alerts, f), f) == FilterAlerts(alerts, f)
  {
    var r := FilterAlerts(alerts, f);
    if |r| > 0 {
      Seqs.FilterAll(r, a => Matches(f, a));
    }
  }
}
