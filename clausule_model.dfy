/**
 * The query and parameter construction of the clausule data-access layer:
 * the filtered `SELECT` of `getAll` and the parameter lists of `create` and
 * `update`, with JavaScript's `||` defaults and truthiness. The database calls
 * themselves are not modelled.
 */
module ClausuleModel {
  import opened Common
  import opened JsValues

  /** The `{ categorie, actief }` fields of `getAll`'s filters; absent fields are `Undefined`. */
  datatype Filters = Filters(categorie: Value, actief: Value)

  const SelectAll := "SELECT * FROM clausules"
  const OrderBy := " ORDER BY categorie, titel"

  /** The condition on one column, with one placeholder: `'<column> = ?'`. */
  function Condition(column: string): string
  {
    column + " = ?"
  }

  /** `actief ? 1 : 0` */
  function ActiefFlag(actief: Value): (flag: Value)
    ensures flag == Number(1) || flag == Number(0)
    ensures flag == Number(1) <==> Truthy(actief)
  {
    if Truthy(actief) then Number(1) else Number(0)
  }

  lemma OnePlaceholderPerCondition(column: string)
    requires '?' !in column
    ensures Occurrences(Condition(column), '?') == 1
  {
    OccurrencesAbsent(column, '?');
    OccurrencesAppend(column, " = ?", '?');
  }

  lemma SelectAllHasNoPlaceholder() ensures Occurrences(SelectAll, '?') == 0
  {
    assert '?' !in SelectAll;
    OccurrencesAbsent(SelectAll, '?');
  }

  lemma OrderByHasNoPlaceholder() ensures Occurrences(OrderBy, '?') == 0
  {
    assert '?' !in OrderBy;
    OccurrencesAbsent(OrderBy, '?');
  }

  lemma WhereHasNoPlaceholder() ensures Occurrences(" WHERE ", '?') == 0
  {
    assert '?' !in " WHERE ";
    OccurrencesAbsent(" WHERE ", '?');
  }

  lemma ConditionsHaveOnePlaceholder()
    ensures Occurrences(Condition("categorie"), '?') == 1 && Occurrences(Condition("actief"), '?') == 1
  {
    assert '?' !in "categorie";
    OnePlaceholderPerCondition("categorie");
    assert '?' !in "actief";
    OnePlaceholderPerCondition("actief");
  }

  /** Conditions that each hold one placeholder, joined by a placeholder-free separator. */
  lemma {:induction false} JoinedPlaceholders(conditions: seq<string>, sep: string)
    requires forall i :: 0 <= i < |conditions| ==> Occurrences(conditions[i], '?') == 1
    requires '?' !in sep
    ensures Occurrences(Join(conditions, sep), '?') == |conditions|
  {
    if |conditions| == 0 {
    } else if |conditions| == 1 {
    } else {
      JoinedPlaceholders(conditions[1..], sep);
      OccurrencesAbsent(sep, '?');
      OccurrencesAppend(conditions[0], sep, '?');
      OccurrencesAppend(conditions[0] + sep, Join(conditions[1..], sep), '?');
    }
  }

  /** A filtered query has one placeholder per condition. */
  lemma FilteredQueryPlaceholders(conditions: seq<string>)
    requires forall i :: 0 <= i < |conditions| ==>
               conditions[i] == Condition("categorie") || conditions[i] == Condition("actief")
    ensures Occurrences(SelectAll + " WHERE " + Join(conditions, " AND ") + OrderBy, '?') == |conditions|
  {
    JoinedConditionPlaceholders(conditions);
    SelectWhereHasNoPlaceholder();
    OrderByHasNoPlaceholder();
    PlaceholderFreeFrame(SelectAll + " WHERE ", Join(conditions, " AND "), OrderBy);
  }

  /** Placeholder-free text around a fragment adds no placeholder. */
  lemma PlaceholderFreeFrame(prefix: string, middle: string, suffix: string)
    requires Occurrences(prefix, '?') == 0 && Occurrences(suffix, '?') == 0
    ensures Occurrences(prefix + middle + suffix, '?') == Occurrences(middle, '?')
  {
    OccurrencesAppend(prefix, middle, '?');
    OccurrencesAppend(prefix + middle, suffix, '?');
  }

  lemma JoinedConditionPlaceholders(conditions: seq<string>)
    requires forall i :: 0 <= i < |conditions| ==>
               conditions[i] == Condition("categorie") || conditions[i] == Condition("actief")
    ensures Occurrences(Join(conditions, " AND "), '?') == |conditions|
  {
    ConditionsHaveOnePlaceholder();
    AndHasNoPlaceholder();
    JoinedPlaceholders(conditions, " AND ");
  }

  lemma AndHasNoPlaceholder() ensures '?' !in " AND " {}

  lemma SelectWhereHasNoPlaceholder() ensures Occurrences(SelectAll + " WHERE ", '?') == 0
  {
    SelectAllHasNoPlaceholder();
    WhereHasNoPlaceholder();
    NoPlaceholderConcat(SelectAll, " WHERE ");
  }

  /** Two placeholder-free texts make a placeholder-free text. */
  lemma NoPlaceholderConcat(a: string, b: string)
    requires Occurrences(a, '?') == 0 && Occurrences(b, '?') == 0
    ensures Occurrences(a + b, '?') == 0
  {
    OccurrencesAppend(a, b, '?');
  }

  /** The unfiltered query has no placeholder. */
  lemma UnfilteredQueryPlaceholders()
    ensures Occurrences(SelectAll + OrderBy, '?') == 0
  {
    SelectAllHasNoPlaceholder();
    OrderByHasNoPlaceholder();
    NoPlaceholderConcat(SelectAll, OrderBy);
  }

  /**
   * The `query` and `params` that `getAll(filters)` passes to the database.
   * The WHERE clause appears exactly when `categorie` is truthy or `actief` is
   * defined (even `false` or `null`); conditions and parameters come in the
   * order categorie, actief; the ORDER BY clause always ends the query; and
   * there is one `?` per parameter.
   */
  method GetAllQuery(filters: Filters) returns (query: string, params: seq<Value>)
    ensures !Truthy(filters.categorie) && filters.actief == Undefined ==>
      query == SelectAll + OrderBy && params == []
    ensures Truthy(filters.categorie) && filters.actief == Undefined ==>
      query == SelectAll + " WHERE " + Condition("categorie") + OrderBy && params == [filters.categorie]
    ensures !Truthy(filters.categorie) && filters.actief != Undefined ==>
      query == SelectAll + " WHERE " + Condition("actief") + OrderBy && params == [ActiefFlag(filters.actief)]
    ensures Truthy(filters.categorie) && filters.actief != Undefined ==>
      query == SelectAll + " WHERE " + Condition("categorie") + " AND " + Condition("actief") + OrderBy &&
      params == [filters.categorie, ActiefFlag(filters.actief)]
    ensures Occurrences(query, '?') == |params|
  {
    query := SelectAll;
    params := [];
    var categorie, actief := filters.categorie, filters.actief;
    if Truthy(categorie) || actief != Undefined {
      var conditions: seq<string> := [];
      if Truthy(categorie) {
        conditions := conditions + [Condition("categorie")];
        params := params + [categorie];
      }
      if actief != Undefined {
        conditions := conditions + [Condition("actief")];
        params := params + [ActiefFlag(actief)];
      }
      FilteredQueryPlaceholders(conditions);
      query := query + " WHERE " + Join(conditions, " AND ");
    } else {
      UnfilteredQueryPlaceholders();
    }
    query := query + OrderBy;
  }

  /** The fields of `clausuleData` that `create` and `update` read; absent ones are `Undefined`. */
  datatype ClausuleData = ClausuleData(
    clausuleId: Value, titel: Value, categorie: Value, inhoud: Value,
    versie: Value, auteur: Value, actief: Value, tags: Value)

  /** JavaScript's `value || fallback`. */
  function OrElse(value: Value, fallback: Value): (r: Value)
    ensures Truthy(value) ==> r == value
    ensures !Truthy(value) ==> r == fallback
  {
    if Truthy(value) then value else fallback
  }

  const DefaultVersie := Str("1.0")
  const DefaultAuteur := Str("Systeem")
  const NoTags := Str("")

  /**
   * The nine parameters of `create`'s INSERT (clausule_id, titel, categorie,
   * inhoud, versie, auteur, tags, created_at, updated_at); `now` stands for the
   * ISO timestamp read from the clock once.
   */
  function CreateParams(data: ClausuleData, now: string): (params: seq<Value>)
    ensures |params| == 9
    ensures params[..4] == [data.clausuleId, data.titel, data.categorie, data.inhoud]
    ensures params[4] == (if Truthy(data.versie) then data.versie else DefaultVersie)
    ensures params[5] == (if Truthy(data.auteur) then data.auteur else DefaultAuteur)
    ensures params[6] == (if Truthy(data.tags) then data.tags else NoTags)
    ensures Truthy(params[4]) && Truthy(params[5])
    ensures params[7] == params[8] == Str(now)
  {
    [data.clausuleId, data.titel, data.categorie, data.inhoud,
     OrElse(data.versie, DefaultVersie), OrElse(data.auteur, DefaultAuteur), OrElse(data.tags, NoTags),
     Str(now), Str(now)]
  }

  /**
   * The nine parameters of `update`'s UPDATE (titel, categorie, inhoud, versie,
   * auteur, actief, tags, updated_at, then the clausule_id of the WHERE clause).
   */
  function UpdateParams(clausuleId: Value, data: ClausuleData, now: string): (params: seq<Value>)
    ensures |params| == 9
    ensures params[..5] == [data.titel, data.categorie, data.inhoud, data.versie, data.auteur]
    ensures params[5] == Number(1) || params[5] == Number(0)
    ensures params[5] == Number(0) <==> data.actief != Undefined && !Truthy(data.actief)
    ensures params[6] == (if Truthy(data.tags) then data.tags else NoTags)
    ensures params[7] == Str(now) && params[8] == clausuleId
  {
    [data.titel, data.categorie, data.inhoud, data.versie, data.auteur,
     if data.actief != Undefined then ActiefFlag(data.actief) else Number(1),
     OrElse(data.tags, NoTags), Str(now), clausuleId]
  }

  /** The record `create` would store for `data`, read back as clausule data. */
  function Stored(data: ClausuleData, now: string): ClausuleData
  {
    var p := CreateParams(data, now);
    ClausuleData(p[0], p[1], p[2], p[3], p[4], p[5], data.actief, p[6])
  }

  /** Creating again from what was stored stores the same values: the defaults are stable. */
  lemma CreateDefaultsAreStable(data: ClausuleData, now: string)
    ensures CreateParams(Stored(data, now), now) == CreateParams(data, now)
  {
  }

  /**
   * `update` does not default versie and auteur: where `create` stores "1.0"
   * and "Systeem" for missing values, `update` passes `undefined` through; a
   * missing actief becomes 1.
   */
  lemma UpdateDoesNotDefault(clausuleId: Value, now: string)
    ensures var data := ClausuleData(clausuleId, Str("t"), Str("c"), Str("i"), Undefined, Undefined, Undefined, Undefined);
      && CreateParams(data, now)[4..6] == [DefaultVersie, DefaultAuteur]
      && UpdateParams(clausuleId, data, now)[3..6] == [Undefined, Undefined, Number(1)]
  {
  }
}
