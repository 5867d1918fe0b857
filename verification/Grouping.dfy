/** Null keys in joins, GROUP BY, and why the rows' order and the columns that a plan drops do not
    matter to the groups. */
module Grouping {
  import opened Relational
  import opened Schema
  import opened Sequences
  import opened Values

  // ----- null join keys -----

  /** SQL's `=`: null equals nothing. */
  predicate KeysValid(on: seq<(ColName, ColName)>, e: Env) {
    forall i :: 0 <= i < |on| ==> Get(e, on[i].0) != Null
  }

  function KeysValidSelector(on: seq<(ColName, ColName)>): Env -> bool {
    e => KeysValid(on, e)
  }

  lemma {:induction false} JoinOneMember(a: Env, right: seq<Env>, on: seq<(ColName, ColName)>, e: Env)
    ensures e in JoinOne(a, right, on) <==> exists b :: b in right && e == a + b && Matches(on, e)
  {
    if right != [] {
      JoinOneMember(a, right[1..], on, e);
    }
  }

  lemma {:induction false} JoinMember(left: seq<Env>, right: seq<Env>, on: seq<(ColName, ColName)>, e: Env)
    ensures e in JoinRows(left, right, on)
       <==> exists a, b :: a in left && b in right && e == a + b && Matches(on, e)
  {
    if left != [] {
      JoinOneMember(left[0], right, on, e);
      JoinMember(left[1..], right, on, e);
    }
  }

  /** No matching pair of input rows has a null among its keys. */
  ghost predicate NoSharedNullKey(left: seq<Env>, right: seq<Env>, on: seq<(ColName, ColName)>) {
    forall a, b :: a in left && b in right && Matches(on, a + b) ==> KeysValid(on, a + b)
  }

  /** The default null policy makes a join differ from SQL exactly when the inputs share a key that
      contains a null. */
  lemma NullPolicyMatters(left: seq<Env>, right: seq<Env>, on: seq<(ColName, ColName)>)
    ensures multiset(JoinRows(left, right, on))
         == multiset(Filter(KeysValidSelector(on), JoinRows(left, right, on)))
       <==> NoSharedNullKey(left, right, on)
  {
    var rows := JoinRows(left, right, on);
    var sql := Filter(KeysValidSelector(on), rows);
    if NoSharedNullKey(left, right, on) {
      forall e: Env ensures multiset(rows)[e] == multiset(sql)[e] {
        FilterCount(KeysValidSelector(on), rows, e);
        JoinMember(left, right, on, e);
      }
    } else {
      var a, b :| a in left && b in right && Matches(on, a + b) && !KeysValid(on, a + b);
      JoinMember(left, right, on, a + b);
      FilterCount(KeysValidSelector(on), rows, a + b);
      assert multiset(rows)[a + b] > 0;
    }
  }

  /** Two rows with null keys: the program joins them, SQL does not. */
  lemma NullKeysJoin(a: ColName, b: ColName)
    requires a != b
    ensures JoinRows([map[a := Null]], [map[b := Null]], [(a, b)]) == [map[a := Null, b := Null]]
    ensures Filter(KeysValidSelector([(a, b)]), [map[a := Null, b := Null]]) == []
  {
    var left, right, on := [map[a := Null]], [map[b := Null]], [(a, b)];
    assert left[0] + right[0] == map[a := Null, b := Null];
    assert Matches(on, left[0] + right[0]);
    assert JoinOne(left[0], right, on) == [left[0] + right[0]] + JoinOne(left[0], right[1..], on);
    assert JoinRows(left, right, on) == JoinOne(left[0], right, on) + JoinRows(left[1..], right, on);
    assert !KeysValid(on, map[a := Null, b := Null]) by {
      assert Get(map[a := Null, b := Null], on[0].0) == Null;
    }
  }

  // ----- groups -----

  /** One requested aggregation: `kind` of `column`, delivered under `name`. */
  datatype Request = Request(column: ColName, kind: Kind, name: ColName)

  function InGroup(key: Env): Env -> bool {
    e => Restrict(e, key.Keys) == key
  }

  function Getter(c: ColName): Env -> Value {
    e => Get(e, c)
  }

  /** The values one request aggregates for one key. */
  function GroupValues(rows: seq<Env>, key: Env, c: ColName): seq<Value> {
    Map(Getter(c), Filter(InGroup(key), rows))
  }

  /** The output row of one key: the key columns, then every aggregate under its name. */
  function GroupRow(rows: seq<Env>, key: Env, requests: seq<Request>): Env {
    if requests == [] then key
    else
      var last := requests[|requests| - 1];
      GroupRow(rows, key, requests[..|requests| - 1])[
        last.name := Aggregate(last.kind, GroupValues(rows, key, last.column))]
  }

  predicate NullFree(key: Env) {
    forall c :: c in key ==> key[c] != Null
  }

  /** GROUP BY. cudf's default leaves out keys that contain a null; SQL groups them. */
  function Groups(rows: seq<Env>, keys: set<ColName>, requests: seq<Request>, dropNullKeys: bool): set<Env> {
    set e | e in rows && (dropNullKeys ==> NullFree(Restrict(e, keys))) :: GroupRow(rows, Restrict(e, keys), requests)
  }

  lemma {:induction false} GroupRowPermutes(s: seq<Env>, t: seq<Env>, key: Env, requests: seq<Request>)
    requires multiset(s) == multiset(t)
    ensures GroupRow(s, key, requests) == GroupRow(t, key, requests)
  {
    if requests != [] {
      var last := requests[|requests| - 1];
      GroupRowPermutes(s, t, key, requests[..|requests| - 1]);
      FilterPermutes(InGroup(key), s, t);
      MapPermutes(Getter(last.column), Filter(InGroup(key), s), Filter(InGroup(key), t));
      AggregatePermutes(last.kind, GroupValues(s, key, last.column), GroupValues(t, key, last.column));
    }
  }

  /** Groups do not depend on the order of the rows. */
  lemma GroupsPermute(s: seq<Env>, t: seq<Env>, keys: set<ColName>, requests: seq<Request>, dropNullKeys: bool)
    requires multiset(s) == multiset(t)
    ensures Groups(s, keys, requests, dropNullKeys) == Groups(t, keys, requests, dropNullKeys)
  {
    forall key: Env { GroupRowPermutes(s, t, key, requests); }
    forall e: Env ensures e in s <==> e in t {
      assert e in multiset(s) <==> e in multiset(t);
    }
  }

  /** `f` leaves alone what the groups are made of. */
  ghost predicate KeepsColumns(f: Env -> Env, rows: seq<Env>, keys: set<ColName>, requests: seq<Request>) {
    forall e :: e in rows ==>
      && Restrict(f(e), keys) == Restrict(e, keys)
      && forall i :: 0 <= i < |requests| ==> Get(f(e), requests[i].column) == Get(e, requests[i].column)
  }

  lemma GroupValuesHead(rows: seq<Env>, key: Env, c: ColName)
    requires rows != []
    ensures GroupValues(rows, key, c)
         == (if Restrict(rows[0], key.Keys) == key then [Get(rows[0], c)] else []) + GroupValues(rows[1..], key, c)
  {
    var rest := Filter(InGroup(key), rows[1..]);
    if Restrict(rows[0], key.Keys) == key {
      assert Filter(InGroup(key), rows) == [rows[0]] + rest;
    } else {
      assert Filter(InGroup(key), rows) == rest;
    }
  }

  lemma {:induction false} GroupValuesMap(f: Env -> Env, rows: seq<Env>, key: Env, c: ColName)
    requires forall e :: e in rows ==> Restrict(f(e), key.Keys) == Restrict(e, key.Keys)
    requires forall e :: e in rows ==> Get(f(e), c) == Get(e, c)
    ensures GroupValues(Map(f, rows), key, c) == GroupValues(rows, key, c)
  {
    if rows == [] {
      assert Map(f, rows) == rows;
    } else {
      assert Map(f, rows)[1..] == Map(f, rows[1..]);
      assert rows[0] in rows;
      GroupValuesMap(f, rows[1..], key, c);
      GroupValuesHead(rows, key, c);
      GroupValuesHead(Map(f, rows), key, c);
    }
  }

  lemma {:induction false} GroupRowMap(f: Env -> Env, rows: seq<Env>, key: Env, requests: seq<Request>)
    requires KeepsColumns(f, rows, key.Keys, requests)
    ensures GroupRow(Map(f, rows), key, requests) == GroupRow(rows, key, requests)
  {
    if requests != [] {
      var init := requests[..|requests| - 1];
      assert forall i :: 0 <= i < |init| ==> init[i] == requests[i];
      GroupRowMap(f, rows, key, init);
      GroupValuesMap(f, rows, key, requests[|requests| - 1].column);
    }
  }

  /** The i-th rows belong to the same group, and the groups have the same rows. */
  ghost predicate SameGroup(a: seq<Env>, b: seq<Env>, i: nat, keys: set<ColName>, requests: seq<Request>)
    requires i < |a| && i < |b|
  {
    && Restrict(a[i], keys) == Restrict(b[i], keys)
    && GroupRow(a, Restrict(a[i], keys), requests) == GroupRow(b, Restrict(b[i], keys), requests)
  }

  lemma GroupsWithin(a: seq<Env>, b: seq<Env>, keys: set<ColName>, requests: seq<Request>, dropNullKeys: bool)
    requires |a| == |b| && forall i :: 0 <= i < |a| ==> SameGroup(a, b, i, keys, requests)
    ensures Groups(a, keys, requests, dropNullKeys) <= Groups(b, keys, requests, dropNullKeys)
  {
    forall r | r in Groups(a, keys, requests, dropNullKeys) ensures r in Groups(b, keys, requests, dropNullKeys) {
      var e :| e in a && (dropNullKeys ==> NullFree(Restrict(e, keys)))
            && r == GroupRow(a, Restrict(e, keys), requests);
      var i :| 0 <= i < |a| && a[i] == e;
      assert SameGroup(a, b, i, keys, requests);
      assert b[i] in b;
    }
  }

  /** Groups do not depend on the columns that no key and no request mentions. */
  lemma GroupsMap(f: Env -> Env, rows: seq<Env>, keys: set<ColName>, requests: seq<Request>, dropNullKeys: bool)
    requires KeepsColumns(f, rows, keys, requests)
    requires forall e :: e in rows ==> keys <= e.Keys
    ensures Groups(Map(f, rows), keys, requests, dropNullKeys) == Groups(rows, keys, requests, dropNullKeys)
  {
    var mapped := Map(f, rows);
    forall i | 0 <= i < |rows|
      ensures SameGroup(mapped, rows, i, keys, requests) && SameGroup(rows, mapped, i, keys, requests)
    {
      assert rows[i] in rows;
      assert Restrict(rows[i], keys).Keys == keys;
      GroupRowMap(f, rows, Restrict(rows[i], keys), requests);
    }
    GroupsWithin(mapped, rows, keys, requests, dropNullKeys);
    GroupsWithin(rows, mapped, keys, requests, dropNullKeys);
  }

  function Names(requests: seq<Request>): set<ColName> {
    set r | r in requests :: r.name
  }

  /** No two requests share a name, and no request is named like a key. */
  ghost predicate DistinctNames(keys: set<ColName>, requests: seq<Request>) {
    && (forall i, j :: 0 <= i < j < |requests| ==> requests[i].name != requests[j].name)
    && (forall i :: 0 <= i < |requests| ==> requests[i].name !in keys)
  }

  /** Every requested aggregate sits under its name, next to the key columns and nothing else. */
  ghost predicate AnswersAll(row: Env, rows: seq<Env>, key: Env, requests: seq<Request>) {
    && row.Keys == key.Keys + Names(requests)
    && Restrict(row, key.Keys) == key
    && forall i :: 0 <= i < |requests| ==>
         && requests[i].name in row
         && row[requests[i].name] == Aggregate(requests[i].kind, GroupValues(rows, key, requests[i].column))
  }

  lemma AddAnswer(row: Env, rows: seq<Env>, key: Env, init: seq<Request>, last: Request)
    requires AnswersAll(row, rows, key, init)
    requires last.name !in key && forall i :: 0 <= i < |init| ==> init[i].name != last.name
    ensures AnswersAll(row[last.name := Aggregate(last.kind, GroupValues(rows, key, last.column))],
                       rows, key, init + [last])
  {
    var after := row[last.name := Aggregate(last.kind, GroupValues(rows, key, last.column))];
    assert Names(init + [last]) == Names(init) + {last.name};
    assert Restrict(after, key.Keys) == Restrict(row, key.Keys);
  }

  lemma {:induction false} GroupRowAnswers(rows: seq<Env>, key: Env, requests: seq<Request>)
    requires DistinctNames(key.Keys, requests)
    ensures AnswersAll(GroupRow(rows, key, requests), rows, key, requests)
  {
    if requests != [] {
      var init, last := requests[..|requests| - 1], requests[|requests| - 1];
      assert forall i :: 0 <= i < |init| ==> init[i] == requests[i];
      GroupRowAnswers(rows, key, init);
      AddAnswer(GroupRow(rows, key, init), rows, key, init, last);
      assert requests == init + [last];
    }
  }

  lemma AnswersUnique(row: Env, row': Env, rows: seq<Env>, key: Env, requests: seq<Request>)
    requires AnswersAll(row, rows, key, requests) && AnswersAll(row', rows, key, requests)
    ensures row == row'
  {
    forall c | c in row ensures row[c] == row'[c] {
      if c in key {
        assert Restrict(row, key.Keys)[c] == Restrict(row', key.Keys)[c];
      } else {
        assert c in Names(requests);
      }
    }
  }

  /** The same requests in another order give the same rows. */
  lemma RequestOrder(rows: seq<Env>, keys: set<ColName>, s: seq<Request>, t: seq<Request>, dropNullKeys: bool)
    requires DistinctNames(keys, s) && DistinctNames(keys, t)
    requires Elements(s) == Elements(t)
    ensures Groups(rows, keys, s, dropNullKeys) == Groups(rows, keys, t, dropNullKeys)
  {
    forall e | e in rows
      ensures GroupRow(rows, Restrict(e, keys), s) == GroupRow(rows, Restrict(e, keys), t)
    {
      var key := Restrict(e, keys);
      GroupRowAnswers(rows, key, s);
      GroupRowAnswers(rows, key, t);
      SameAnswers(GroupRow(rows, key, t), rows, key, s, t);
      AnswersUnique(GroupRow(rows, key, s), GroupRow(rows, key, t), rows, key, s);
    }
  }

  lemma SameAnswers(row: Env, rows: seq<Env>, key: Env, s: seq<Request>, t: seq<Request>)
    requires Elements(s) == Elements(t)
    requires AnswersAll(row, rows, key, t)
    ensures AnswersAll(row, rows, key, s)
  {
    forall r: Request ensures r in s <==> r in t {
      assert r in Elements(s) <==> r in Elements(t);
    }
    assert Names(s) == Names(t);
    forall i | 0 <= i < |s| ensures exists j :: 0 <= j < |t| && t[j] == s[i] {
      assert s[i] in s;
    }
  }
}
