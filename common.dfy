/** Values shared by every stream: decoded JSON, dates and the fold of dates into a bookmark. */
module Common {

  datatype Option<+T> = None | Some(value: T)

  /** A calendar day, as a day number. The source keeps dates as ISO 8601 `YYYY-MM-DD`
      strings and compares them with `max`; for that format string order is day order. */
  type Date = int

  /** A decoded JSON value. Mappings keep the iteration order of the response. */
  datatype Value =
    | Null
    | Bool(b: bool)
    | Num(n: int)
    | Str(s: string)
    | Day(d: Date)            // a string holding an ISO 8601 date
    | Arr(items: seq<Value>)
    | Obj(fields: seq<(string, Value)>)

  /** Python truthiness of a decoded value. */
  predicate Truthy(v: Value) {
    match v
    case Null => false
    case Bool(b) => b
    case Num(n) => n != 0
    case Str(s) => s != ""
    case Day(_) => true
    case Arr(items) => items != []
    case Obj(fields) => fields != []
  }

  /** `dict.values()`, in iteration order. */
  function Values(fields: seq<(string, Value)>): (vs: seq<Value>)
    ensures |vs| == |fields|
    ensures forall i :: 0 <= i < |vs| ==> vs[i] == fields[i].1
  {
    seq(|fields|, i requires 0 <= i < |fields| => fields[i].1)
  }

  /** The value stored under `key`, if any. */
  function Lookup(fields: seq<(string, Value)>, key: string): Option<Value>
  {
    if fields == [] then None
    else if fields[0].0 == key then Some(fields[0].1)
    else Lookup(fields[1..], key)
  }

  /** The lookup finds the first entry under `key`, and finds nothing only when there is none. */
  lemma {:induction false} LookupFinds(fields: seq<(string, Value)>, key: string)
    ensures Lookup(fields, key).None? <==> forall i :: 0 <= i < |fields| ==> fields[i].0 != key
    ensures Lookup(fields, key).Some? ==>
              exists i :: 0 <= i < |fields| && fields[i] == (key, Lookup(fields, key).value) &&
                forall j :: 0 <= j < i ==> fields[j].0 != key
    decreases |fields|
  {
    if fields != [] && fields[0].0 != key {
      var rest := fields[1..];
      LookupFinds(rest, key);
      assert forall i :: 0 < i < |fields| ==> fields[i] == rest[i - 1];
      if Lookup(rest, key).Some? {
        var i :| 0 <= i < |rest| && rest[i] == (key, Lookup(rest, key).value) &&
                 forall j :: 0 <= j < i ==> rest[j].0 != key;
        assert fields[i + 1] == rest[i];
        assert forall j :: 0 < j <= i ==> fields[j] == rest[j - 1];
      }
    }
  }

  /** `v[key]`: absent when `v` is not a mapping or has no such key (a raised error in the source). */
  function Get(v: Value, key: string): Option<Value> {
    if v.Obj? then Lookup(v.fields, key) else None
  }

  /** `entry['date']` read as a date. */
  function DateOf(entry: Value): Option<Date> {
    match Get(entry, "date")
    case Some(Day(d)) => Some(d)
    case _ => None
  }

  function Max(a: int, b: int): int {
    if a < b then b else a
  }

  /** The bookmark fold `b = max(b, d)` over `dates`, left to right. */
  function LatestDate(b: Date, dates: seq<Date>): (r: Date)
    ensures b <= r
    decreases |dates|
  {
    if dates == [] then b else LatestDate(Max(b, dates[0]), dates[1..])
  }

  /** The fold is the maximum: at or past every date, and equal to the start or to one of them. */
  lemma {:induction false} LatestDateIsMax(b: Date, dates: seq<Date>)
    ensures forall i :: 0 <= i < |dates| ==> dates[i] <= LatestDate(b, dates)
    ensures LatestDate(b, dates) == b || exists i :: 0 <= i < |dates| && LatestDate(b, dates) == dates[i]
    decreases |dates|
  {
    if dates != [] {
      var rest := dates[1..];
      LatestDateIsMax(Max(b, dates[0]), rest);
      assert forall i :: 0 < i < |dates| ==> dates[i] == rest[i - 1];
      if LatestDate(b, dates) != Max(b, dates[0]) {
        var i :| 0 <= i < |rest| && LatestDate(b, dates) == rest[i];
        assert LatestDate(b, dates) == dates[i + 1];
      }
    }
  }

  /** Folding one more date onto a fold takes one more `max`. */
  lemma {:induction false} LatestDateSnoc(b: Date, dates: seq<Date>, d: Date)
    ensures LatestDate(b, dates + [d]) == Max(LatestDate(b, dates), d)
    decreases |dates|
  {
    if dates == [] {
      assert LatestDate(b, [d]) == LatestDate(Max(b, d), []);
    } else {
      assert (dates + [d])[1..] == dates[1..] + [d];
      LatestDateSnoc(Max(b, dates[0]), dates[1..], d);
    }
  }

  /** Folding a sequence of dates is folding its two halves one after the other. */
  lemma {:induction false} LatestDateAppend(b: Date, xs: seq<Date>, ys: seq<Date>)
    ensures LatestDate(b, xs + ys) == LatestDate(LatestDate(b, xs), ys)
    decreases |xs|
  {
    if xs == [] {
      assert xs + ys == ys;
    } else {
      assert (xs + ys)[1..] == xs[1..] + ys;
      LatestDateAppend(Max(b, xs[0]), xs[1..], ys);
    }
  }

  /** A bookmark already at or past every date is left where it is. */
  lemma {:induction false} LatestDateStays(b: Date, dates: seq<Date>)
    requires forall i :: 0 <= i < |dates| ==> dates[i] <= b
    ensures LatestDate(b, dates) == b
    decreases |dates|
  {
    if dates != [] {
      LatestDateStays(Max(b, dates[0]), dates[1..]);
    }
  }

  /** Re-running a fold over the same dates leaves the bookmark unchanged (no drift). */
  lemma LatestDateIdempotent(b: Date, dates: seq<Date>)
    ensures LatestDate(LatestDate(b, dates), dates) == LatestDate(b, dates)
  {
    LatestDateIsMax(b, dates);
    LatestDateStays(LatestDate(b, dates), dates);
  }

  /** Taking one more element of `s`. */
  lemma TakeSnoc<T>(s: seq<T>, i: nat)
    requires i < |s|
    ensures s[..i + 1] == s[..i] + [s[i]]
  {
  }
}
