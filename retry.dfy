/** The 400-repair loop of `RanksStream.do_sync`: on a rejection, take the first digit
    run of the message and delete every `,<run>` or `<run>,` from the id segment of the
    URI, then ask again, until the reply is not a rejection or no comma is left.

    The deletion is `re.sub(",X|X,", "", uri)`. The rest of the URI (`/ranks/`, the
    dates, `/daily/`, `?tz=utc`) holds no comma, and the digits of a match cannot reach
    across the `/` around the id segment, so deleting on the segment alone is the same
    operation, and "no comma in the URI" is "no comma in the segment". */
module Retry {
  import opened Common
  import opened Batches
  import opened RankApi

  predicate IsPrefix(p: string, s: string) {
    |p| <= |s| && s[..|p|] == p
  }

  predicate IsSuffix(p: string, s: string) {
    |p| <= |s| && s[|s| - |p|..] == p
  }

  /** The longest prefix of `s` made of digits. */
  function DigitPrefix(s: string): (r: string)
    ensures IsPrefix(r, s) && AllDigits(r)
    ensures |r| == |s| || !IsDigit(s[|r|])
  {
    if s == [] || !IsDigit(s[0]) then [] else [s[0]] + DigitPrefix(s[1..])
  }

  /** The position of the first digit of `s`, or `|s|` when it has none. */
  function FirstDigit(s: string): (k: nat)
    ensures k <= |s| && (k < |s| ==> IsDigit(s[k]))
    ensures forall j :: 0 <= j < k ==> !IsDigit(s[j])
  {
    if s == [] || IsDigit(s[0]) then 0
    else
      var k := FirstDigit(s[1..]);
      assert forall j :: 0 < j <= k ==> s[j] == s[1..][j - 1];
      k + 1
  }

  /** `re.findall('\d+', msg)[0]`, or `None` when the message has no digit (where the
      source raises `IndexError`). The run starts at the first digit of the message and
      takes every digit that follows it. */
  function FirstDigitRun(msg: string): (r: Option<string>)
    ensures r.None? <==> forall k :: 0 <= k < |msg| ==> !IsDigit(msg[k])
    ensures r.Some? ==> r.value != [] && AllDigits(r.value)
    ensures r.Some? ==> exists k :: 0 <= k < |msg| && IsPrefix(r.value, msg[k..])
                                    && (forall j :: 0 <= j < k ==> !IsDigit(msg[j]))
                                    && (k + |r.value| == |msg| || !IsDigit(msg[k + |r.value|]))
  {
    var k := FirstDigit(msg);
    if k == |msg| then None
    else
      var run := DigitPrefix(msg[k..]);
      assert |run| == |msg[k..]| || msg[k + |run|] == msg[k..][|run|];
      Some(run)
  }

  /** `re.sub(",X|X,", "", s)`: scanning left to right, at each position try `,X` and
      then `X,`; delete a match and resume after it, else keep the character. */
  function StripId(s: string, x: string): (r: string)
    requires x != []
    ensures |r| <= |s|
    decreases |s|
  {
    if s == [] then []
    else if IsPrefix([','] + x, s) then StripId(s[|x| + 1..], x)
    else if IsPrefix(x + [','], s) then StripId(s[|x| + 1..], x)
    else [s[0]] + StripId(s[1..], x)
  }

  // ---- Slices of concatenations, proved apart from `StripId`. ----

  lemma AppendSlices<T>(p: seq<T>, t: seq<T>)
    ensures (p + t)[..|p|] == p && (p + t)[|p|..] == t
  {
  }

  lemma SplitAt<T>(s: seq<T>, n: nat)
    requires n <= |s|
    ensures s[..n] + s[n..] == s
  {
  }

  lemma AppendTail<T>(p: seq<T>, t: seq<T>)
    requires p != []
    ensures (p + t)[0] == p[0] && (p + t)[1..] == p[1..] + t
  {
  }

  lemma RegroupHead<T>(x: seq<T>, t: seq<T>)
    requires t != []
    ensures x + t == (x + [t[0]]) + t[1..]
  {
    assert t == [t[0]] + t[1..];
  }

  lemma ConsTail<T>(c: T, a: seq<T>, t: seq<T>)
    ensures ([c] + a + t)[0] == c && ([c] + a + t)[1..] == a + t
  {
    assert [c] + a + t == [c] + (a + t);
  }

  /** Where neither pattern matches, the character is kept. */
  lemma StripStep(s: string, x: string)
    requires x != [] && s != []
    requires !IsPrefix([','] + x, s) && !IsPrefix(x + [','], s)
    ensures StripId(s, x) == [s[0]] + StripId(s[1..], x)
  {
  }

  function CommaCount(s: string): nat {
    if s == [] then 0 else (if s[0] == ',' then 1 else 0) + CommaCount(s[1..])
  }

  lemma {:induction false} CommaCountZero(s: string)
    ensures CommaCount(s) == 0 <==> ',' !in s
    decreases |s|
  {
    if s != [] {
      CommaCountZero(s[1..]);
      assert s == [s[0]] + s[1..];
    }
  }

  lemma {:induction false} CommaCountAppend(a: string, b: string)
    ensures CommaCount(a + b) == CommaCount(a) + CommaCount(b)
    decreases |a|
  {
    if a == [] {
      assert a + b == b;
    } else {
      assert (a + b)[0] == a[0];
      assert (a + b)[1..] == a[1..] + b;
      CommaCountAppend(a[1..], b);
    }
  }

  /** The deletion never adds a comma. */
  lemma {:induction false} StripKeepsCommas(s: string, x: string)
    requires x != []
    ensures CommaCount(StripId(s, x)) <= CommaCount(s)
    decreases |s|
  {
    if s != [] {
      if IsPrefix([','] + x, s) || IsPrefix(x + [','], s) {
        var n := |x| + 1;
        calc {
          CommaCount(StripId(s, x));
          ==
          CommaCount(StripId(s[n..], x));
          <= { StripKeepsCommas(s[n..], x); }
          CommaCount(s[n..]);
          <= { CommaCountAppend(s[..n], s[n..]); SplitAt(s, n); }
          CommaCount(s);
        }
      } else {
        calc {
          CommaCount(StripId(s, x));
          == { StripStep(s, x); }
          CommaCount([s[0]] + StripId(s[1..], x));
          == { CommaCountAppend([s[0]], StripId(s[1..], x)); }
          CommaCount([s[0]]) + CommaCount(StripId(s[1..], x));
          <= { StripKeepsCommas(s[1..], x); }
          CommaCount([s[0]]) + CommaCount(s[1..]);
          == { CommaCountAppend([s[0]], s[1..]); SplitAt(s, 1); }
          CommaCount(s);
        }
      }
    }
  }

  lemma StripNoComma(s: string, x: string)
    requires x != []
    ensures ',' in StripId(s, x) ==> ',' in s
  {
    StripKeepsCommas(s, x);
    CommaCountZero(s);
    CommaCountZero(StripId(s, x));
  }

  // ---- The deletion on a comma-joined id list. ----

  /** Well-formed ids: non-empty runs of digits. */
  predicate DigitIds(ids: seq<string>) {
    forall k :: 0 <= k < |ids| ==> ids[k] != [] && AllDigits(ids[k])
  }

  /** No id other than `x` itself starts or ends with `x`: the condition under which the
      substring deletion acts on whole ids. */
  predicate AffixFree(ids: seq<string>, x: string) {
    forall k :: 0 <= k < |ids| ==> ids[k] == x || (!IsPrefix(x, ids[k]) && !IsSuffix(x, ids[k]))
  }

  /** The ids other than `x`, in order. */
  function Without(ids: seq<string>, x: string): (r: seq<string>)
    ensures forall y :: y in r <==> y in ids && y != x
    ensures |r| <= |ids|
    ensures x in ids ==> |r| < |ids|
  {
    if ids == [] then []
    else if ids[0] == x then Without(ids[1..], x)
    else [ids[0]] + Without(ids[1..], x)
  }

  /** No `,X` match where a digit stands. */
  lemma NoCommaFirstMatch(t: string, x: string)
    requires t != [] && IsDigit(t[0])
    ensures !IsPrefix([','] + x, t)
  {
    if |x| + 1 <= |t| {
      assert t[..|x| + 1][0] == t[0];
    }
  }

  /** No `X,` match where a comma stands. */
  lemma NoCommaLastMatch(t: string, x: string)
    requires t != [] && t[0] == ',' && x != [] && AllDigits(x)
    ensures !IsPrefix(x + [','], t)
  {
    if |x| + 1 <= |t| {
      assert t[..|x| + 1][0] == t[0];
      assert (x + [','])[0] == x[0];
    }
  }

  /** No `X,` match starting inside an id that is not followed by a comma or does not
      end with `X`. */
  lemma NoMatchInsideId(a: string, s: string, x: string)
    requires x != [] && AllDigits(x) && a != [] && AllDigits(a)
    requires s == [] || s[0] == ','
    requires s == [] || !IsSuffix(x, a)
    ensures !IsPrefix(x + [','], a + s)
  {
    var t, p := a + s, x + [','];
    if |p| <= |t| {
      var n := |x|;
      if n < |a| {
        assert t[..|p|][n] == a[n];
        assert p[n] == ',';
      } else if n == |a| {
        assert s != [];
        assert a[|a| - |x|..] == a;
        assert t[..|p|][..n] == a;
        assert p[..n] == x;
      } else {
        assert t[..|p|][|a|] == s[0];
        assert p[|a|] == x[|a|];
      }
    }
  }

  /** No `,X` match before an id that does not start with `X`. */
  lemma NoMatchBeforeId(a: string, tail: string, x: string)
    requires x != [] && AllDigits(x) && a != [] && AllDigits(a)
    requires tail == [] || tail[0] == ','
    requires !IsPrefix(x, a)
    ensures !IsPrefix([','] + x, [','] + a + tail)
  {
    var t, p := [','] + a + tail, [','] + x;
    if |p| <= |t| {
      if |x| <= |a| {
        assert a[..|x|] != x;
        var j :| 0 <= j < |x| && a[..|x|][j] != x[j];
        assert t[..|p|][j + 1] == a[j];
        assert p[j + 1] == x[j];
      } else {
        assert t[..|p|][|a| + 1] == tail[0];
        assert p[|a| + 1] == x[|a|];
      }
    }
  }

  lemma SuffixOfTail(x: string, a: string)
    requires a != [] && IsSuffix(x, a[1..])
    ensures IsSuffix(x, a)
  {
    assert a[1..][|a| - 1 - |x|..] == a[|a| - |x|..];
  }

  /** Scanning through the digits of one id deletes nothing when that id does not end
      with `x` or is the last one. */
  lemma {:induction false} StripSkipsDigits(a: string, s: string, x: string)
    requires x != [] && AllDigits(x) && AllDigits(a)
    requires s == [] || s[0] == ','
    requires s == [] || !IsSuffix(x, a)
    ensures StripId(a + s, x) == a + StripId(s, x)
    decreases |a|
  {
    if a == [] {
      assert a + s == s;
    } else {
      calc {
        StripId(a + s, x);
        == { StripKeepsDigit(a, s, x); }
        [a[0]] + StripId(a[1..] + s, x);
        == { if s != [] && IsSuffix(x, a[1..]) { SuffixOfTail(x, a); }
             StripSkipsDigits(a[1..], s, x); }
        [a[0]] + (a[1..] + StripId(s, x));
        == { assert a == [a[0]] + a[1..]; }
        a + StripId(s, x);
      }
    }
  }

  /** The first digit of an id is kept when the id does not end with `x` or is the last. */
  lemma StripKeepsDigit(a: string, s: string, x: string)
    requires x != [] && AllDigits(x) && a != [] && AllDigits(a)
    requires s == [] || s[0] == ','
    requires s == [] || !IsSuffix(x, a)
    ensures StripId(a + s, x) == [a[0]] + StripId(a[1..] + s, x)
  {
    var t := a + s;
    AppendTail(a, s);
    NoCommaFirstMatch(t, x);
    NoMatchInsideId(a, s, x);
    calc {
      StripId(t, x);
      == { StripStep(t, x); }
      [t[0]] + StripId(t[1..], x);
      ==
      [a[0]] + StripId(a[1..] + s, x);
    }
  }

  /** A `,X` match where the id `x` itself stands. */
  lemma StripDropsId(tail: string, x: string)
    requires x != []
    ensures StripId([','] + x + tail, x) == StripId(tail, x)
  {
    var s := [','] + x + tail;
    AppendSlices([','] + x, tail);
    calc {
      StripId(s, x);
      == { assert IsPrefix([','] + x, s); }
      StripId(s[|x| + 1..], x);
      ==
      StripId(tail, x);
    }
  }

  /** An `X,` match where the first id is `x` and another follows. */
  lemma StripDropsFirst(tail: string, x: string)
    requires x != [] && AllDigits(x)
    requires tail != [] && tail[0] == ','
    ensures StripId(x + tail, x) == StripId(tail[1..], x)
  {
    var s := x + tail;
    AppendTail(x, tail);
    NoCommaFirstMatch(s, x);
    RegroupHead(x, tail);
    AppendSlices(x + [','], tail[1..]);
    calc {
      StripId(s, x);
      == { assert IsPrefix(x + [','], s); }
      StripId(s[|x| + 1..], x);
      ==
      StripId(tail[1..], x);
    }
  }

  /** An id other than `x`, with its comma, is kept whole. */
  lemma StripKeepsId(a: string, tail: string, x: string)
    requires x != [] && AllDigits(x) && a != [] && AllDigits(a)
    requires tail == [] || tail[0] == ','
    requires !IsPrefix(x, a) && !IsSuffix(x, a)
    ensures StripId([','] + a + tail, x) == [','] + a + StripId(tail, x)
  {
    calc {
      StripId([','] + a + tail, x);
      == { StripKeepsComma(a, tail, x); }
      [','] + StripId(a + tail, x);
      == { StripSkipsDigits(a, tail, x); }
      [','] + (a + StripId(tail, x));
      ==
      [','] + a + StripId(tail, x);
    }
  }

  /** The comma before an id that does not start with `x` is kept. */
  lemma StripKeepsComma(a: string, tail: string, x: string)
    requires x != [] && AllDigits(x) && a != [] && AllDigits(a)
    requires tail == [] || tail[0] == ','
    requires !IsPrefix(x, a)
    ensures StripId([','] + a + tail, x) == [','] + StripId(a + tail, x)
  {
    var s := [','] + a + tail;
    ConsTail(',', a, tail);
    NoMatchBeforeId(a, tail, x);
    NoCommaLastMatch(s, x);
    calc {
      StripId(s, x);
      == { StripStep(s, x); }
      [s[0]] + StripId(s[1..], x);
      ==
      [','] + StripId(a + tail, x);
    }
  }

  lemma CommaPrefixedStart(ids: seq<string>)
    ensures CommaPrefixed(ids) == [] || CommaPrefixed(ids)[0] == ','
  {
  }

  lemma RestIds(ids: seq<string>, x: string)
    requires ids != [] && DigitIds(ids) && AffixFree(ids, x)
    ensures DigitIds(ids[1..]) && AffixFree(ids[1..], x)
    ensures ids[0] != [] && AllDigits(ids[0])
    ensures ids[0] != x ==> !IsPrefix(x, ids[0]) && !IsSuffix(x, ids[0])
  {
    assert forall k :: 0 <= k < |ids[1..]| ==> ids[1..][k] == ids[k + 1];
  }

  lemma {:induction false} StripCommaPrefixed(ids: seq<string>, x: string)
    requires x != [] && AllDigits(x) && DigitIds(ids) && AffixFree(ids, x)
    ensures StripId(CommaPrefixed(ids), x) == CommaPrefixed(Without(ids, x))
    decreases |ids|
  {
    if ids != [] {
      var a, rest := ids[0], ids[1..];
      RestIds(ids, x);
      var tail := CommaPrefixed(rest);
      CommaPrefixedStart(rest);
      assert CommaPrefixed(ids) == [','] + a + tail;
      if a == x {
        calc {
          StripId([','] + a + tail, x);
          == { StripDropsId(tail, x); }
          StripId(tail, x);
          == { StripCommaPrefixed(rest, x); }
          CommaPrefixed(Without(rest, x));
        }
      } else {
        var w := Without(rest, x);
        calc {
          StripId([','] + a + tail, x);
          == { StripKeepsId(a, tail, x); }
          [','] + a + StripId(tail, x);
          == { StripCommaPrefixed(rest, x); }
          [','] + a + CommaPrefixed(w);
          == { assert ([a] + w)[0] == a && ([a] + w)[1..] == w; }
          CommaPrefixed([a] + w);
        }
      }
    }
  }

  /** On a batch of digit ids in which no other id starts or ends with `x`, the deletion
      removes exactly the ids equal to `x`, keeping the others in order; when every id
      is `x`, one copy of `x` is left (no comma remains after it to match). */
  lemma {:induction false} StripFromJoin(ids: seq<string>, x: string)
    requires x != [] && AllDigits(x) && DigitIds(ids) && AffixFree(ids, x)
    ensures StripId(Join(ids), x) ==
              if Without(ids, x) != [] then Join(Without(ids, x))
              else if ids == [] then ""
              else x
    decreases |ids|
  {
    if ids != [] {
      var a, rest := ids[0], ids[1..];
      RestIds(ids, x);
      var tail := CommaPrefixed(rest);
      CommaPrefixedStart(rest);
      assert Join(ids) == a + tail;
      if a == x && rest == [] {
        calc {
          StripId(a + tail, x);
          == { StripSkipsDigits(a, tail, x); }
          a + StripId(tail, x);
          == { assert a + "" == a; }
          x;
        }
      } else if a == x {
        calc {
          StripId(a + tail, x);
          == { StripDropsFirst(tail, x); }
          StripId(tail[1..], x);
          == { assert tail[1..] == Join(rest); }
          StripId(Join(rest), x);
        }
        StripFromJoin(rest, x);
      } else {
        var w := Without(rest, x);
        calc {
          StripId(a + tail, x);
          == { StripSkipsDigits(a, tail, x); }
          a + StripId(tail, x);
          == { StripCommaPrefixed(rest, x); }
          a + CommaPrefixed(w);
          == { assert ([a] + w)[0] == a && ([a] + w)[1..] == w; }
          Join([a] + w);
        }
      }
    }
  }

  /** `','.join` of comma-free ids has one comma fewer than ids. */
  lemma {:induction false} JoinCommas(ids: seq<string>)
    requires ids != []
    requires forall k :: 0 <= k < |ids| ==> ',' !in ids[k]
    ensures CommaCount(Join(ids)) == |ids| - 1
  {
    CommaPrefixedCommas(ids[1..]);
    CommaCountAppend(ids[0], CommaPrefixed(ids[1..]));
    CommaCountZero(ids[0]);
  }

  lemma {:induction false} CommaPrefixedCommas(ids: seq<string>)
    requires forall k :: 0 <= k < |ids| ==> ',' !in ids[k]
    ensures CommaCount(CommaPrefixed(ids)) == |ids|
    decreases |ids|
  {
    if ids != [] {
      CommaPrefixedCommas(ids[1..]);
      CommaCountZero(ids[0]);
      CommaCountAppend("," + ids[0], CommaPrefixed(ids[1..]));
      CommaCountAppend(",", ids[0]);
    }
  }

  /** When the rejected id is in a batch of two or more affix-free ids, the deletion
      drops a comma: this is what makes the repair loop terminate. */
  lemma StripShrinks(ids: seq<string>, x: string)
    requires x != [] && AllDigits(x) && DigitIds(ids) && AffixFree(ids, x)
    requires x in ids && |ids| >= 2
    ensures CommaCount(StripId(Join(ids), x)) < CommaCount(Join(ids))
  {
    StripFromJoin(ids, x);
    assert forall k :: 0 <= k < |ids| ==> ',' !in ids[k] by {
      forall k, j | 0 <= k < |ids| && 0 <= j < |ids[k]| ensures ids[k][j] != ',' {
        assert IsDigit(ids[k][j]);
      }
    }
    JoinCommas(ids);
    var w := Without(ids, x);
    if w != [] {
      assert forall k :: 0 <= k < |w| ==> ',' !in w[k] by {
        forall k | 0 <= k < |w| ensures ',' !in w[k] {
          assert w[k] in w;
        }
      }
      JoinCommas(w);
    } else {
      CommaCountZero(x);
      assert forall j :: 0 <= j < |x| ==> x[j] != ',' by {
        forall j | 0 <= j < |x| ensures x[j] != ',' {
          assert IsDigit(x[j]);
        }
      }
    }
  }

  /** When the rejected id is not in the batch, the deletion changes nothing, so the
      source would request the very same URI again. */
  lemma StripAbsentId(ids: seq<string>, x: string)
    requires x != [] && AllDigits(x) && DigitIds(ids) && AffixFree(ids, x)
    requires x !in ids
    ensures StripId(Join(ids), x) == Join(ids)
  {
    StripFromJoin(ids, x);
    WithoutAbsent(ids, x);
  }

  lemma {:induction false} WithoutAbsent(ids: seq<string>, x: string)
    requires x !in ids
    ensures Without(ids, x) == ids
    decreases |ids|
  {
    if ids != [] {
      WithoutAbsent(ids[1..], x);
    }
  }

  /** The deletion works on substrings, not ids: ids 142, 7 and 42 with 42 rejected leave
      the single, never requested, id 17. */
  lemma StripIsSubstringBased()
    ensures StripId("142,7,42", "42") == "17"
  {
    assert IsPrefix("42" + [','], "42,7,42");
    assert "42,7,42"[3..] == "7,42";
    assert "7,42"[1..] == ",42";
    assert IsPrefix([','] + "42", ",42");
    assert ",42"[3..] == "";
    assert StripId(",42", "42") == "";
    assert StripId("7,42", "42") == "7";
    assert "142,7,42"[1..] == "42,7,42";
    assert StripId("42,7,42", "42") == "7";
  }

  // ---- The repair loop. ----

  /** The condition under which the repair loop ends: whenever the API rejects a query of
      two or more ids with a message holding a digit run, deleting that run drops a comma
      (by `StripShrinks`, true when the run names an id of an affix-free batch). */
  ghost predicate Repairs(api: RankQuery -> RankReply) {
    forall q: RankQuery ::
      ',' in q.ids && api(q).Rejected? && FirstDigitRun(api(q).message).Some? ==>
        CommaCount(StripId(q.ids, FirstDigitRun(api(q).message).value)) < CommaCount(q.ids)
  }

  /** How one batch ends: fetched (with the id segment finally requested), abandoned once
      at most one id is left, or raised. */
  datatype BatchResult =
    | Fetched(ids: string, dates: seq<Date>, data: seq<RankEntry>)
    | Abandoned(ids: string)
    | Raised

  /** The batch outcome, request after request. */
  function Settle(api: RankQuery -> RankReply, ids: string, start: Date, end: Date): BatchResult
    requires Repairs(api)
    decreases CommaCount(ids)
  {
    match api(RankQuery(ids, start, end))
    case Failed => Raised
    case Ranked(dates, data) => Fetched(ids, dates, data)
    case Rejected(message) =>
      match FirstDigitRun(message)
      case None => Raised
      case Some(run) =>
        var left := StripId(ids, run);
        if ',' !in left then Abandoned(left)
        else
          StripNoComma(ids, run);
          Settle(api, left, start, end)
  }

  /** A fetched batch carries the reply to the segment finally requested; an abandoned
      one has no comma left in its segment. */
  lemma {:induction false} SettleOutcome(api: RankQuery -> RankReply, ids: string, start: Date, end: Date)
    requires Repairs(api)
    ensures Settle(api, ids, start, end).Fetched? ==>
              api(RankQuery(Settle(api, ids, start, end).ids, start, end))
                == Ranked(Settle(api, ids, start, end).dates, Settle(api, ids, start, end).data)
    ensures Settle(api, ids, start, end).Abandoned? ==> ',' !in Settle(api, ids, start, end).ids
    decreases CommaCount(ids)
  {
    var reply := api(RankQuery(ids, start, end));
    if reply.Rejected? && FirstDigitRun(reply.message).Some? {
      var left := StripId(ids, FirstDigitRun(reply.message).value);
      if ',' in left {
        StripNoComma(ids, FirstDigitRun(reply.message).value);
        SettleOutcome(api, left, start, end);
      }
    }
  }

  /** A batch down to a single id that is rejected is abandoned: no retry, no error. */
  lemma LastIdAbandoned(api: RankQuery -> RankReply, id: string, start: Date, end: Date)
    requires Repairs(api)
    requires ',' !in id
    requires api(RankQuery(id, start, end)).Rejected?
    requires FirstDigitRun(api(RankQuery(id, start, end)).message).Some?
    ensures Settle(api, id, start, end).Abandoned?
  {
    StripNoComma(id, FirstDigitRun(api(RankQuery(id, start, end)).message).value);
  }

  /** Deleting the second of two ids leaves the first, which holds no comma. */
  lemma StripSecondId(good: string, bad: string)
    requires good != [] && AllDigits(good) && bad != [] && AllDigits(bad)
    requires good != bad && !IsPrefix(bad, good) && !IsSuffix(bad, good)
    ensures StripId(good + "," + bad, bad) == good && ',' !in good
  {
    var ids := [good, bad];
    assert ids[1..] == [bad] && [bad][1..] == [];
    assert Join(ids) == good + "," + bad by {
      assert CommaPrefixed([bad]) == "," + bad + CommaPrefixed([]);
      assert Join(ids) == good + CommaPrefixed([bad]);
    }
    assert Without(ids, bad) == [good];
    StripFromJoin(ids, bad);
    assert Join([good]) == good by {
      assert [good][1..] == [];
    }
    assert ',' !in good by {
      forall j | 0 <= j < |good| ensures good[j] != ',' {
        assert IsDigit(good[j]);
      }
    }
  }

  /** A batch of two ids whose second is rejected is abandoned with the good id left over:
      once no comma remains the loop stops without asking for that id alone. */
  lemma LastGoodIdAbandoned(api: RankQuery -> RankReply, good: string, bad: string, start: Date, end: Date)
    requires Repairs(api)
    requires good != [] && AllDigits(good) && bad != [] && AllDigits(bad)
    requires good != bad && !IsPrefix(bad, good) && !IsSuffix(bad, good)
    requires api(RankQuery(good + "," + bad, start, end)).Rejected?
    requires FirstDigitRun(api(RankQuery(good + "," + bad, start, end)).message) == Some(bad)
    ensures Settle(api, good + "," + bad, start, end) == Abandoned(good)
  {
    StripSecondId(good, bad);
  }

  /** The loop `while data.get("status") == 400: ...` for one batch. */
  method RetryBatch(api: RankQuery -> RankReply, ids: string, start: Date, end: Date)
    returns (result: BatchResult)
    requires Repairs(api)
    ensures result == Settle(api, ids, start, end)
  {
    var uri := ids;
    var reply := api(RankQuery(uri, start, end));
    while reply.Rejected?
      invariant reply == api(RankQuery(uri, start, end))
      invariant Settle(api, uri, start, end) == Settle(api, ids, start, end)
      decreases CommaCount(uri)
    {
      var run := FirstDigitRun(reply.message);
      if run.None? {
        return Raised;
      }
      var left := StripId(uri, run.value);
      if ',' !in left {
        return Abandoned(left);
      }
      StripNoComma(uri, run.value);
      uri := left;
      reply := api(RankQuery(uri, start, end));
    }
    if reply.Failed? {
      return Raised;
    }
    return Fetched(uri, reply.dates, reply.data);
  }
}
