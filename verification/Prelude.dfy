/** Values shared by every part of the model, and the meaning of an SQL `ORDER BY`. */
module Prelude {

  datatype Option<+T> = None | Some(value: T) {
    function GetOr(default: T): T {
      match this
      case Some(v) => v
      case None => default
    }
  }

  datatype Result<+T, +E> = Ok(value: T) | Err(error: E)

  /** A primary key. The repository draws random UUIDs; all that is used of them is that a new one is fresh. */
  type Id = nat

  /** The text of a primary key. */
  function Digits(n: nat): string {
    if n < 10 then ['0' + n as char] else Digits(n / 10) + ['0' + (n % 10) as char]
  }

  lemma {:induction false} DigitsNonEmpty(n: nat)
    ensures |Digits(n)| >= 1 && (n >= 10 ==> |Digits(n)| >= 2)
  {
    if n >= 10 {
      DigitsNonEmpty(n / 10);
    }
  }

  lemma {:induction false} DigitsAreInjective(a: nat, b: nat)
    requires Digits(a) == Digits(b)
    ensures a == b
  {
    DigitsNonEmpty(a);
    DigitsNonEmpty(b);
    if a >= 10 && b >= 10 {
      var s, t := Digits(a), Digits(b);
      assert s[..|s| - 1] == Digits(a / 10) && t[..|t| - 1] == Digits(b / 10);
      assert s[|s| - 1] == '0' + (a % 10) as char && t[|t| - 1] == '0' + (b % 10) as char;
      DigitsAreInjective(a / 10, b / 10);
    }
  }

  /** Row `a` sorts before row `b`: smaller key first, equal keys in id order. */
  predicate Before(key: map<Id, real>, a: Id, b: Id)
    requires a in key && b in key
  {
    key[a] < key[b] || (key[a] == key[b] && a < b)
  }

  predicate Ordered(key: map<Id, real>, rows: seq<Id>)
    requires forall id | id in rows :: id in key
  {
    forall i, j | 0 <= i < j < |rows| :: Before(key, rows[i], rows[j])
  }

  predicate IsLeast(key: map<Id, real>, ids: set<Id>, least: Id)
    requires ids <= key.Keys
  {
    least in ids && forall b | b in ids && b != least :: Before(key, least, b)
  }

  lemma {:induction false} LeastExists(key: map<Id, real>, ids: set<Id>)
    requires ids <= key.Keys && ids != {}
    ensures exists least :: IsLeast(key, ids, least)
    decreases |ids|
  {
    var some :| some in ids;
    var rest := ids - {some};
    if rest == {} {
      assert IsLeast(key, ids, some) by { assert forall b | b in ids && b != some :: b in rest; }
    } else {
      LeastExists(key, rest);
      var least :| IsLeast(key, rest, least);
      assert forall b | b in ids && b != some :: b in rest;
      if Before(key, some, least) {
        assert IsLeast(key, ids, some);
      } else {
        assert IsLeast(key, ids, least);
      }
    }
  }

  /** The rows `ids` listed in order. */
  function Sorted(key: map<Id, real>, ids: set<Id>): (rows: seq<Id>)
    requires ids <= key.Keys
    ensures forall id :: id in rows <==> id in ids
    ensures Ordered(key, rows)
    decreases |ids|
  {
    if ids == {} then []
    else
      LeastExists(key, ids);
      var least :| IsLeast(key, ids, least);
      var rest := Sorted(key, ids - {least});
      assert forall id | id in rest :: id in ids && id != least;
      assert forall i | 0 <= i < |rest| :: rest[i] in rest;
      [least] + rest
  }

  /** `SELECT id ... ORDER BY key`: every selected row once, in order. */
  function OrderBy(key: map<Id, real>): (rows: seq<Id>)
    ensures forall id :: id in rows <==> id in key
    ensures Ordered(key, rows)
  {
    Sorted(key, key.Keys)
  }

  /** An ordered listing is determined by the rows it lists. */
  lemma {:induction false} OrderedIsUnique(key: map<Id, real>, xs: seq<Id>, ys: seq<Id>)
    requires forall id :: id in xs <==> id in ys
    requires forall id | id in xs :: id in key
    requires Ordered(key, xs) && Ordered(key, ys)
    ensures xs == ys
  {
    var y := if ys != [] then ys[0] else 0;
    assert ys != [] ==> y in ys;
    if xs != [] {
      assert xs[0] in ys && |ys| > 0;
      assert ys[0] in xs;
      assert xs[0] == ys[0];
      forall id ensures id in xs[1..] <==> id in ys[1..] {
        if id in xs[1..] {
          assert id in ys && Before(key, xs[0], id);
        }
        if id in ys[1..] {
          assert id in xs && Before(key, ys[0], id);
        }
      }
      OrderedIsUnique(key, xs[1..], ys[1..]);
    }
  }

  lemma {:induction false} NewestExists(ids: set<Id>)
    requires ids != {}
    ensures exists newest :: newest in ids && forall id | id in ids :: id <= newest
    decreases |ids|
  {
    var some :| some in ids;
    var rest := ids - {some};
    if rest == {} {
      assert forall id | id in ids :: id == some || id in rest;
    } else {
      NewestExists(rest);
      var newest :| newest in rest && forall id | id in rest :: id <= newest;
      var top := if newest < some then some else newest;
      assert forall id | id in ids :: id == some || id in rest;
      assert top in ids && forall id | id in ids :: id <= top;
    }
  }

  /** Ids grow in creation order, so the newest row is the one with the largest. */
  function Newest(ids: set<Id>): (newest: Id)
    requires ids != {}
    ensures newest in ids && forall id | id in ids :: id <= newest
  {
    NewestExists(ids);
    var newest :| newest in ids && forall id | id in ids :: id <= newest;
    newest
  }

  /** Maps that agree away from `k` are equal up to what they hold there. */
  lemma MapsDifferAt<K, V>(m: map<K, V>, m': map<K, V>, k: K)
    requires forall other | other != k :: (other in m <==> other in m')
    requires forall other | other != k && other in m :: m'[other] == m[other]
    ensures k in m' ==> m' == m[k := m'[k]]
    ensures k !in m' ==> m' == m - {k}
  {
    if k in m' {
      assert m[k := m'[k]].Keys == m'.Keys;
    } else {
      assert (m - {k}).Keys == m'.Keys;
    }
  }
}
