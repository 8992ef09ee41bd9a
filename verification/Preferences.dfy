/** Notification preferences: one row per user, app, channel and event type, where the type "*"
    stands for all others. The lookup picks between the two by sorting. */
module Preferences {
  import opened Wrappers

  const WILDCARD := "*"

  datatype Scope = Scope(userId: string, appId: string, channel: string)

  /** Keyed by the table's primary key. */
  type Table = map<(Scope, string), bool>

  // ----- The order ----------------------------------------------------------------------

  /** `a` sorts strictly before `b`, character code by character code. */
  predicate Before(a: string, b: string) {
    b != "" && (a == "" || a[0] < b[0] || (a[0] == b[0] && Before(a[1..], b[1..])))
  }

  lemma {:induction false} BeforeIsTotal(a: string, b: string)
    ensures a == b || Before(a, b) || Before(b, a)
    ensures !(Before(a, b) && Before(b, a))
    ensures !Before(a, a)
  {
    if a != "" && b != "" {
      BeforeIsTotal(a[1..], b[1..]);
      BeforeIsTotal(a[1..], a[1..]);
      assert a[0] == b[0] && a[1..] == b[1..] ==> a == b by {
        assert a == [a[0]] + a[1..] && b == [b[0]] + b[1..];
      }
    } else if a != "" {
      BeforeIsTotal(a[1..], a[1..]);
    }
  }

  lemma {:induction false} BeforeIsTransitive(a: string, b: string, c: string)
    requires Before(a, b) && Before(b, c)
    ensures Before(a, c)
  {
    if a != "" && a[0] == b[0] == c[0] {
      BeforeIsTransitive(a[1..], b[1..], c[1..]);
    }
  }

  /** The types that sort before the wildcard: the empty one, and those whose first character does. */
  lemma {:induction false} BeforeWildcard(eventType: string)
    ensures Before(eventType, WILDCARD) <==> eventType == "" || eventType[0] < '*'
  {
    if eventType != "" {
      assert WILDCARD[1..] == "";
    }
  }

  // ----- Specification ------------------------------------------------------------------

  /** Event types of the rows the query's WHERE clause selects. */
  ghost function Matching(table: Table, scope: Scope, eventType: string): set<string> {
    set t | t in {eventType, WILDCARD} && (scope, t) in table
  }

  /** First under ORDER BY event_type DESC. */
  ghost predicate IsTop(types: set<string>, t: string) {
    t in types && forall u :: u in types && u != t ==> Before(u, t)
  }

  /** What the query returns. */
  ghost predicate Selects(table: Table, scope: Scope, eventType: string, r: Option<bool>) {
    match r
    case None => Matching(table, scope, eventType) == {}
    case Some(enabled) =>
      exists t :: IsTop(Matching(table, scope, eventType), t) && (scope, t) in table && table[(scope, t)] == enabled
  }

  function Default(channel: string): bool {
    channel == "push"
  }

  /** The documented meaning: the exact row, else the wildcard row, else push on and others off. */
  function Intended(table: Table, scope: Scope, eventType: string): bool {
    if (scope, eventType) in table then table[(scope, eventType)]
    else if (scope, WILDCARD) in table then table[(scope, WILDCARD)]
    else Default(scope.channel)
  }

  /** The meaning the sort gives: the wildcard row comes first when the type sorts before it. */
  function Effective(table: Table, scope: Scope, eventType: string): bool {
    if Before(eventType, WILDCARD) && (scope, WILDCARD) in table then table[(scope, WILDCARD)]
    else Intended(table, scope, eventType)
  }

  // ----- The repository -----------------------------------------------------------------

  class PreferenceRepo {
    var table: Table

    constructor ()
      ensures table == map[]
    {
      table := map[];
    }

    method Upsert(scope: Scope, eventType: string, enabled: bool, ok: bool) returns (done: bool)
      modifies this
      ensures done == ok
      ensures table == if ok then old(table)[(scope, eventType) := enabled] else old(table)
    {
      if !ok {
        return false;
      }
      table := table[(scope, eventType) := enabled];
      return true;
    }

    /** Walks the selected rows, keeping the one that sorts last. */
    method GetPreferenceEnabled(scope: Scope, eventType: string) returns (r: Option<bool>)
      ensures Selects(table, scope, eventType, r)
    {
      var candidates := [eventType, WILDCARD];
      var top: Option<string> := None;
      for k := 0 to |candidates|
        invariant top.None? ==> forall i :: 0 <= i < k ==> (scope, candidates[i]) !in table
        invariant top.Some? ==>
                    && top.value in candidates && (scope, top.value) in table
                    && forall i :: 0 <= i < k && (scope, candidates[i]) in table && candidates[i] != top.value ==>
                         Before(candidates[i], top.value)
      {
        var t := candidates[k];
        if (scope, t) in table {
          if top.None? || Before(top.value, t) {
            if top.Some? {
              BeforeThrough(table, scope, candidates[..k], top.value, t);
            }
            top := Some(t);
          } else {
            BeforeIsTotal(top.value, t);
          }
        }
      }
      assert eventType == candidates[0] && WILDCARD == candidates[1];
      if top.None? {
        return None;
      }
      assert IsTop(Matching(table, scope, eventType), top.value);
      return Some(table[(scope, top.value)]);
    }

    /** `None` is a database error. */
    method IsEnabled(scope: Scope, eventType: string, ok: bool) returns (r: Option<bool>)
      ensures r == if ok then Some(Effective(table, scope, eventType)) else None
    {
      if !ok {
        return None;
      }
      var row := GetPreferenceEnabled(scope, eventType);
      SelectionDecides(table, scope, eventType, row);
      if row.None? {
        return Some(scope.channel == "push");
      }
      return row;
    }
  }

  lemma {:induction false} BeforeThrough(table: Table, scope: Scope, candidates: seq<string>, top: string, t: string)
    requires Before(top, t)
    requires forall i :: 0 <= i < |candidates| && (scope, candidates[i]) in table && candidates[i] != top ==>
               Before(candidates[i], top)
    ensures forall i :: 0 <= i < |candidates| && (scope, candidates[i]) in table ==> Before(candidates[i], t)
  {
    forall i | 0 <= i < |candidates| && (scope, candidates[i]) in table ensures Before(candidates[i], t) {
      if candidates[i] != top {
        BeforeIsTransitive(candidates[i], top, t);
      }
    }
  }

  // ----- What the sort decides ----------------------------------------------------------

  /** The sort-and-limit query decides the answer: whatever row it returns, with the default for no
      row, is the meaning above. */
  lemma {:induction false} SelectionDecides(table: Table, scope: Scope, eventType: string, r: Option<bool>)
    requires Selects(table, scope, eventType, r)
    ensures Effective(table, scope, eventType) == if r.Some? then r.value else scope.channel == "push"
  {
    BeforeIsTotal(eventType, WILDCARD);
    var types := Matching(table, scope, eventType);
    if r.None? {
      assert eventType !in types && WILDCARD !in types;
    } else {
      var t :| IsTop(types, t) && (scope, t) in table && table[(scope, t)] == r.value;
      assert t == eventType || t == WILDCARD;
      if (scope, eventType) in table {
        assert eventType in types;
      }
      if (scope, WILDCARD) in table {
        assert WILDCARD in types;
      }
    }
  }

  /** "Exact match wins over wildcard" holds exactly off one family of cases: a type that is empty
      or starts below `*`, with both rows present and set differently. */
  lemma {:induction false} ExactWinsExactly(table: Table, scope: Scope, eventType: string)
    ensures Effective(table, scope, eventType) == Intended(table, scope, eventType) <==>
            !(&& (eventType == "" || eventType[0] < '*')
              && (scope, eventType) in table && (scope, WILDCARD) in table
              && table[(scope, eventType)] != table[(scope, WILDCARD)])
  {
    BeforeWildcard(eventType);
  }

  /** Reading back an upsert returns the value written, except for such a type under a wildcard row
      set the other way. */
  lemma {:induction false} UpsertReadsBackExactly(table: Table, scope: Scope, eventType: string, enabled: bool)
    ensures Effective(table[(scope, eventType) := enabled], scope, eventType) == enabled <==>
            !(&& (eventType == "" || eventType[0] < '*')
              && (scope, WILDCARD) in table && table[(scope, WILDCARD)] != enabled)
  {
    BeforeWildcard(eventType);
  }

  /** An upsert reaches its own type and, for the wildcard, the types without a row of their own and
      those that sort before it; nothing else changes. */
  lemma {:induction false} UpsertReaches(
      table: Table, scope: Scope, written: string, enabled: bool, other: Scope, eventType: string)
    requires other != scope || (written != eventType && written != WILDCARD)
             || (written == WILDCARD && (scope, eventType) in table && eventType != WILDCARD
                 && eventType != "" && eventType[0] >= '*')
    ensures Effective(table[(scope, written) := enabled], other, eventType) == Effective(table, other, eventType)
  {
    BeforeWildcard(eventType);
  }

  // ----- Histories ----------------------------------------------------------------------

  datatype Write = Write(scope: Scope, eventType: string, enabled: bool)

  function Written(table: Table, writes: seq<Write>): Table {
    if writes == [] then table
    else
      var w := writes[|writes| - 1];
      Written(table, writes[..|writes| - 1])[(w.scope, w.eventType) := w.enabled]
  }

  /** The value last written for a key. */
  function LastWrite(writes: seq<Write>, scope: Scope, eventType: string): Option<bool> {
    if writes == [] then None
    else
      var w := writes[|writes| - 1];
      if w.scope == scope && w.eventType == eventType then Some(w.enabled)
      else LastWrite(writes[..|writes| - 1], scope, eventType)
  }

  lemma {:induction false} TableIsLastWrites(writes: seq<Write>, scope: Scope, eventType: string)
    ensures var last := LastWrite(writes, scope, eventType);
            && ((scope, eventType) in Written(map[], writes) <==> last.Some?)
            && (last.Some? ==> Written(map[], writes)[(scope, eventType)] == last.value)
  {
    if writes != [] {
      TableIsLastWrites(writes[..|writes| - 1], scope, eventType);
    }
  }

  /** After any history of upserts the answer is the last value written for the type, else the last
      written for the wildcard, else the default; for a type sorting before the wildcard the first
      two change places. */
  lemma {:induction false} HistoryDecides(writes: seq<Write>, scope: Scope, eventType: string)
    ensures var own, wild := LastWrite(writes, scope, eventType), LastWrite(writes, scope, "*");
            var first, second := if eventType == "" || eventType[0] < '*' then wild else own,
                                 if eventType == "" || eventType[0] < '*' then own else wild;
            Effective(Written(map[], writes), scope, eventType)
            == if first.Some? then first.value else if second.Some? then second.value else scope.channel == "push"
  {
    TableIsLastWrites(writes, scope, eventType);
    TableIsLastWrites(writes, scope, WILDCARD);
    BeforeWildcard(eventType);
  }
}
