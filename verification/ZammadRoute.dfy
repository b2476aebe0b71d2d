/** Which Zammad read paths are GREEN, and how long one can be. */
module ZammadRoute {
  import opened Ingress
  import opened ZammadCommand

  const PATH_MAX := 512
  const URL_BUFFER := 2048

  const GREEN_EXACT: seq<string> := ["/api/v1/tickets", "/api/v1/ticket_states", "/api/v1/groups"]
  const GREEN_ID_BASE: seq<string> := ["/api/v1/tickets/", "/api/v1/ticket_articles/by_ticket/"]

  // ---- The grammar ----

  /** A row of the read table: an exact path, or a base followed by a canonical number. */
  predicate GreenRow(path: string) {
    || (exists i :: 0 <= i < |GREEN_EXACT| && path == GREEN_EXACT[i])
    || (exists i :: 0 <= i < |GREEN_ID_BASE| && HasBase(path, GREEN_ID_BASE[i]))
  }

  predicate HasBase(path: string, base: string) {
    |path| > |base| && path[..|base|] == base && CanonicalNumber(path[|base|..])
  }

  predicate IsPair(pair: string, name: string) {
    |pair| > |name| && pair[..|name|] == name && pair[|name|] == '=' && CanonicalNumber(pair[|name| + 1..])
  }

  predicate Listed(pair: string) { IsPair(pair, "page") || IsPair(pair, "per_page") }

  /** Pairs joined by ampersands. */
  function Joined(pairs: seq<string>): string
    requires pairs != []
  {
    if |pairs| == 1 then pairs[0] else Joined(pairs[..|pairs| - 1]) + "&" + pairs[|pairs| - 1]
  }

  predicate NamesRepeat(a: string, b: string) {
    (IsPair(a, "page") && IsPair(b, "page")) || (IsPair(a, "per_page") && IsPair(b, "per_page"))
  }

  /** One or more listed pairs, no name twice. */
  predicate GreenPairs(pairs: seq<string>) {
    && pairs != []
    && (forall i :: 0 <= i < |pairs| ==> Listed(pairs[i]))
    && (forall i, j :: 0 <= i < j < |pairs| ==> !NamesRepeat(pairs[i], pairs[j]))
  }

  function Spelled(row: string, pairs: seq<string>): string {
    if pairs == [] then row else row + "?" + Joined(pairs)
  }

  /** The GREEN set: a listed row, alone or with green pairs. */
  predicate GreenPath(path: string, row: string, pairs: seq<string>) {
    GreenRow(row) && (pairs == [] || GreenPairs(pairs)) && path == Spelled(row, pairs)
  }

  // ---- Length ----

  lemma AtMostTwoPairs(pairs: seq<string>)
    requires GreenPairs(pairs)
    ensures |pairs| <= 2
    ensures |pairs| == 2 ==> IsPair(pairs[0], "page") != IsPair(pairs[1], "page")
  {
    hide Listed, NamesRepeat, IsPair;
    if |pairs| == 2 { TwoNamesAreBoth(pairs[0], pairs[1]); }
    if |pairs| > 2 { ThreeNamesRepeat(pairs[0], pairs[1], pairs[2]); }
  }

  lemma TwoNamesAreBoth(a: string, b: string)
    requires Listed(a) && Listed(b) && !NamesRepeat(a, b)
    ensures IsPair(a, "page") != IsPair(b, "page")
  {
    NamesDiffer(a);
    NamesDiffer(b);
  }

  lemma ThreeNamesRepeat(a: string, b: string, c: string)
    requires Listed(a) && Listed(b) && Listed(c)
    ensures NamesRepeat(a, b) || NamesRepeat(a, c) || NamesRepeat(b, c)
  {
  }

  lemma NamesDiffer(pair: string)
    ensures !(IsPair(pair, "page") && IsPair(pair, "per_page"))
  {
    assert "page"[1] == 'a' && "per_page"[1] == 'e';
    if |pair| > 8 { assert pair[..4][1] == pair[1] && pair[..8][1] == pair[1]; }
  }

  lemma PairIsShort(pair: string)
    requires Listed(pair)
    ensures IsPair(pair, "page") ==> |pair| <= 25
    ensures |pair| <= 29
  {
  }

  lemma RowIsShort(row: string)
    requires GreenRow(row)
    ensures |row| <= 54
  {
    assert |GREEN_ID_BASE[0]| == 16 && |GREEN_ID_BASE[1]| == 34;
    assert |GREEN_EXACT[0]| == 15 && |GREEN_EXACT[1]| == 21 && |GREEN_EXACT[2]| == 14;
  }

  /** Every GREEN path is at most 110 bytes: with the longest base URL it cannot truncate. */
  lemma GreenIsShort(path: string, row: string, pairs: seq<string>)
    requires GreenPath(path, row, pairs)
    ensures |path| <= 110
    ensures forall base: string :: |base| <= 8 + 255 + 6 ==> |base + path| < URL_BUFFER
  {
    hide GreenRow, IsPair;
    RowIsShort(row);
    if pairs != [] {
      AtMostTwoPairs(pairs);
      PairIsShort(pairs[0]);
      if |pairs| == 2 {
        PairIsShort(pairs[1]);
        assert pairs[..1] == [pairs[0]];
        assert Joined(pairs) == pairs[0] + "&" + pairs[1];
      }
    }
  }

  /** And 110 is reached. */
  lemma LongestGreenPath()
    ensures exists path, row, pairs :: GreenPath(path, row, pairs) && |path| == 110
  {
    var nines := seq(20, i => '9');
    var row := GREEN_ID_BASE[1] + nines;
    var page, per := "page=" + nines, "per_page=" + nines;
    assert CanonicalNumber(nines);
    assert HasBase(row, GREEN_ID_BASE[1]) by { assert row[34..] == nines; }
    assert IsPair(page, "page") by { assert page[..4] == "page" && page[5..] == nines; }
    assert IsPair(per, "per_page") by { assert per[..8] == "per_page" && per[9..] == nines; }
    NamesDiffer(page);
    NamesDiffer(per);
    var pairs := [page, per];
    assert GreenPairs(pairs);
    assert pairs[..1] == [page];
    assert Joined(pairs) == page + "&" + per;
    assert |row| == 54 && |page| == 25 && |per| == 29;
    var path := Spelled(row, pairs);
    assert GreenPath(path, row, pairs);
  }

  // ---- What can arrive ----

  /** The bytes a row or a single pair is made of. */
  predicate RouteByte(c: char) {
    || '0' <= c <= '9' || 'a' <= c <= 'z' || c == '/' || c == '_' || c == '=' || c == '?'
  }

  predicate RouteBytes(s: string) { forall i :: 0 <= i < |s| ==> RouteByte(s[i]) }

  lemma RouteBytesPass(s: string)
    requires RouteBytes(s)
    ensures SeparatorGuard(s)
  {
  }

  lemma RouteBytesOfSum(a: string, b: string)
    requires RouteBytes(a) && RouteBytes(b)
    ensures RouteBytes(a + b)
  {
  }

  lemma TablesAreRouteBytes()
    ensures forall i :: 0 <= i < |GREEN_ID_BASE| ==> RouteBytes(GREEN_ID_BASE[i])
    ensures forall i :: 0 <= i < |GREEN_EXACT| ==> RouteBytes(GREEN_EXACT[i])
  {
  }

  lemma RowIsRouteBytes(row: string)
    requires GreenRow(row)
    ensures RouteBytes(row)
  {
    hide RouteByte, HasBase;
    TablesAreRouteBytes();
    if i :| 0 <= i < |GREEN_ID_BASE| && HasBase(row, GREEN_ID_BASE[i]) {
      BaseIsRouteBytes(row, GREEN_ID_BASE[i]);
    }
  }

  lemma BaseIsRouteBytes(row: string, base: string)
    requires HasBase(row, base) && RouteBytes(base)
    ensures RouteBytes(row)
  {
    var digits := row[|base|..];
    assert RouteBytes(digits);
    RouteBytesOfSum(base, digits);
    assert row == base + digits;
  }

  lemma PairIsRouteBytes(pair: string)
    requires Listed(pair)
    ensures RouteBytes(pair)
  {
    hide RouteByte, IsPair;
    NamesAreRouteBytes();
    if IsPair(pair, "page") { NamedPairIsRouteBytes(pair, "page"); } else { NamedPairIsRouteBytes(pair, "per_page"); }
  }

  lemma NamesAreRouteBytes()
    ensures RouteBytes("page") && RouteBytes("per_page")
  {
  }

  lemma NamedPairIsRouteBytes(pair: string, name: string)
    requires IsPair(pair, name) && RouteBytes(name)
    ensures RouteBytes(pair)
  {
    var digits := pair[|name| + 1..];
    assert RouteBytes(digits) && RouteBytes("=");
    RouteBytesOfSum(name, "=");
    RouteBytesOfSum(name + "=", digits);
    assert pair == name + "=" + digits;
  }

  /** A GREEN path passes the daemon's request boundary exactly when it has at most one pair: two pairs
      are joined by an ampersand. */
  lemma GreenArrivesExactly(path: string, row: string, pairs: seq<string>)
    requires GreenPath(path, row, pairs)
    ensures SeparatorGuard(path) <==> |pairs| <= 1
    ensures SeparatorGuard(path) ==> |path| <= 84
  {
    hide GreenRow, IsPair, RouteByte, Listed, NamesRepeat, SeparatorGuard;
    RowIsShort(row);
    RowIsRouteBytes(row);
    if pairs == [] {
      RouteBytesPass(path);
    } else if |pairs| == 1 {
      PairIsShort(pairs[0]);
      PairIsRouteBytes(pairs[0]);
      MarkIsRouteByte();
      RouteBytesOfSum(row, "?");
      RouteBytesOfSum(row + "?", pairs[0]);
      RouteBytesPass(path);
    } else {
      JoinedHasAmpersand(pairs);
      var k :| 0 <= k < |Joined(pairs)| && Joined(pairs)[k] == '&';
      assert path[|row| + 1 + k] == '&';
      AmpersandIsRefused(path, |row| + 1 + k);
    }
  }

  lemma MarkIsRouteByte()
    ensures RouteBytes("?")
  {
  }

  lemma AmpersandIsRefused(path: string, k: nat)
    requires k < |path| && path[k] == '&'
    ensures !SeparatorGuard(path)
  {
  }

  lemma JoinedHasAmpersand(pairs: seq<string>)
    requires |pairs| > 1
    ensures exists k :: 0 <= k < |Joined(pairs)| && Joined(pairs)[k] == '&'
  {
    var front := Joined(pairs[..|pairs| - 1]);
    assert Joined(pairs)[|front|] == '&';
  }

  /** The longest GREEN path that can arrive has 84 bytes. */
  lemma LongestArrival()
    ensures exists path, row, pairs :: GreenPath(path, row, pairs) && SeparatorGuard(path) && |path| == 84
  {
    hide SeparatorGuard;
    var nines := seq(20, i => '9');
    var row, per := GREEN_ID_BASE[1] + nines, "per_page=" + nines;
    assert CanonicalNumber(nines);
    assert HasBase(row, GREEN_ID_BASE[1]) by { assert row[34..] == nines; }
    assert IsPair(per, "per_page") by { assert per[..8] == "per_page" && per[9..] == nines; }
    var pairs := [per];
    assert GreenPairs(pairs);
    assert |row| == 54 && |per| == 29;
    var path := Spelled(row, pairs);
    assert GreenPath(path, row, pairs);
    GreenArrivesExactly(path, row, pairs);
  }

  // ---- The router ----

  /** The name check of one pair: which listed name, if any, it carries. */
  method PairName(pair: string) returns (page: bool, per: bool)
    ensures page <==> IsPair(pair, "page")
    ensures per <==> IsPair(pair, "per_page")
  {
    page, per := false, false;
    var eq := ScanTo(pair, 0, '=');
    PairSplitsAtEquals(pair, "page", eq);
    PairSplitsAtEquals(pair, "per_page", eq);
    if eq == |pair| { return; }
    if pair[..eq] == "page" {
      page := CanonicalNumber(pair[eq + 1..]);
    } else if pair[..eq] == "per_page" {
      per := CanonicalNumber(pair[eq + 1..]);
    }
  }

  lemma PairSplitsAtEquals(pair: string, name: string, eq: nat)
    requires '=' !in name && eq <= |pair|
    requires (forall i :: 0 <= i < eq ==> pair[i] != '=') && (eq < |pair| ==> pair[eq] == '=')
    ensures IsPair(pair, name) <==> eq < |pair| && pair[..eq] == name && CanonicalNumber(pair[eq + 1..])
  {
    if IsPair(pair, name) {
      assert forall i :: 0 <= i < |name| ==> pair[i] == pair[..|name|][i];
      assert eq == |name|;
    }
  }

  /** The text between ampersands. */
  function Split(q: string): (r: seq<string>)
    ensures |r| > 0
  {
    if q == [] then [""]
    else
      var rest := Split(q[1..]);
      if q[0] == '&' then [""] + rest else [[q[0]] + rest[0]] + rest[1..]
  }

  lemma {:induction false} SplitFirst(q: string, end: nat)
    requires end <= |q| && (forall i :: 0 <= i < end ==> q[i] != '&') && (end < |q| ==> q[end] == '&')
    ensures Split(q) == if end == |q| then [q] else [q[..end]] + Split(q[end + 1..])
  {
    if end > 0 {
      SplitFirst(q[1..], end - 1);
      if end == |q| {
        assert [q[0]] + q[1..] == q;
      } else {
        assert q[1..][..end - 1] == q[1..end] && [q[0]] + q[1..end] == q[..end];
        assert q[1..][end..] == q[end + 1..];
        assert ([q[1..end]] + Split(q[end + 1..]))[1..] == Split(q[end + 1..]);
      }
    }
  }

  lemma SplitNext(q: string, i: nat, end: nat)
    requires i <= end <= |q| && (forall j :: i <= j < end ==> q[j] != '&') && (end < |q| ==> q[end] == '&')
    ensures Split(q[i..]) == if end == |q| then [q[i..end]] else [q[i..end]] + Split(q[end + 1..])
  {
    SplitFirst(q[i..], end - i);
    assert q[i..][..end - i] == q[i..end];
    assert q[i..|q|] == q[i..];
    if end < |q| { assert q[i..][end - i + 1..] == q[end + 1..]; }
  }

  lemma SplitOfNothing()
    ensures Split("") == [""] && !Listed("")
  {
  }

  ghost predicate Has(pairs: seq<string>, name: string) { exists k :: 0 <= k < |pairs| && IsPair(pairs[k], name) }

  /** The pairs read so far are the front of the split, green, and `page`, `per` say which names they use. */
  ghost predicate ReadUpTo(q: string, i: nat, pairs: seq<string>, page: bool, per: bool)
    requires i <= |q|
  {
    && Split(q) == (if i < |q| then pairs + Split(q[i..]) else pairs)
    && (pairs != [] ==> GreenPairs(pairs))
    && (page <==> Has(pairs, "page")) && (per <==> Has(pairs, "per_page"))
  }

  lemma ReadNothing(q: string)
    requires q != ""
    ensures ReadUpTo(q, 0, [], false, false)
  {
    hide Split;
    assert q[0..] == q;
    assert [] + Split(q) == Split(q);
  }

  /** One more pair, not the name of an earlier one. */
  lemma ReadOneMore(q: string, i: nat, end: nat, pairs: seq<string>, seenPage: bool, seenPer: bool, page: bool, per: bool)
    requires i < |q| && ReadUpTo(q, i, pairs, seenPage, seenPer) && i <= end <= |q|
    requires (forall j :: i <= j < end ==> q[j] != '&') && (end < |q| ==> q[end] == '&') && end + 1 != |q|
    requires (page <==> IsPair(q[i..end], "page")) && (per <==> IsPair(q[i..end], "per_page")) && (page || per)
    requires !(page && seenPage) && !(per && seenPer)
    ensures ReadUpTo(q, if end < |q| then end + 1 else end, pairs + [q[i..end]], seenPage || page, seenPer || per)
  {
    hide IsPair, Split, GreenPairs, Has;
    var pair := q[i..end];
    SplitNext(q, i, end);
    if end < |q| { assert pairs + ([pair] + Split(q[end + 1..])) == pairs + [pair] + Split(q[end + 1..]); }
    NotRepeated(pairs, pair, seenPage, seenPer);
    PairsGrow(pairs, pair);
    HasGrows(pairs, pair, "page");
    HasGrows(pairs, pair, "per_page");
  }

  lemma NotRepeated(pairs: seq<string>, pair: string, seenPage: bool, seenPer: bool)
    requires (seenPage <==> Has(pairs, "page")) && (seenPer <==> Has(pairs, "per_page"))
    requires !(IsPair(pair, "page") && seenPage) && !(IsPair(pair, "per_page") && seenPer)
    ensures forall k :: 0 <= k < |pairs| ==> !NamesRepeat(pairs[k], pair)
  {
    hide IsPair;
  }

  lemma HasGrows(pairs: seq<string>, pair: string, name: string)
    ensures Has(pairs + [pair], name) <==> Has(pairs, name) || IsPair(pair, name)
  {
    hide IsPair;
    var more := pairs + [pair];
    assert more[|pairs|] == pair;
    if Has(pairs, name) { var k :| 0 <= k < |pairs| && IsPair(pairs[k], name); assert more[k] == pairs[k]; }
  }

  /** The pair just read stands in the split after those before it. */
  lemma NextInSplit(q: string, i: nat, end: nat, pairs: seq<string>)
    requires i < |q| && i <= end <= |q| && Split(q) == pairs + Split(q[i..])
    requires (forall j :: i <= j < end ==> q[j] != '&') && (end < |q| ==> q[end] == '&')
    ensures |Split(q)| > |pairs| && Split(q)[..|pairs|] == pairs && Split(q)[|pairs|] == q[i..end]
    ensures end + 1 == |q| ==> |Split(q)| > |pairs| + 1 && Split(q)[|pairs| + 1] == ""
  {
    hide Split;
    SplitNext(q, i, end);
    if end + 1 == |q| {
      SplitOfNothing();
      assert q[end + 1..] == "";
    }
  }

  lemma UnlistedIsRed(all: seq<string>, k: nat)
    requires k < |all| && !Listed(all[k])
    ensures !GreenPairs(all)
  {
  }

  /** The query check, one pair at a time. */
  method QueryOk(q: string) returns (ok: bool)
    ensures ok <==> GreenPairs(Split(q))
  {
    hide IsPair, Split, GreenPairs, Has;
    SplitOfNothing();
    if |q| == 0 {
      assert q == "";
      UnlistedIsRed(Split(q), 0);
      return false;
    }
    var seenPage, seenPer := false, false;
    ghost var pairs: seq<string> := [];
    var i := 0;
    ReadNothing(q);
    while i < |q|
      invariant 0 <= i <= |q| && (i == |q| ==> pairs != [])
      invariant ReadUpTo(q, i, pairs, seenPage, seenPer)
    {
      var end := ScanTo(q, i, '&');
      var pair := q[i..end];
      NextInSplit(q, i, end, pairs);
      if end + 1 == |q| { UnlistedIsRed(Split(q), |pairs| + 1); return false; }
      var page, per := PairName(pair);
      if !page && !per { UnlistedIsRed(Split(q), |pairs|); return false; }
      if page && seenPage { RepeatIsRed(Split(q), pairs, pair, "page"); return false; }
      if per && seenPer { RepeatIsRed(Split(q), pairs, pair, "per_page"); return false; }
      ReadOneMore(q, i, end, pairs, seenPage, seenPer, page, per);
      pairs := pairs + [pair];
      seenPage, seenPer := seenPage || page, seenPer || per;
      i := if end < |q| then end + 1 else end;
    }
    ok := true;
  }

  lemma RepeatIsRed(all: seq<string>, pairs: seq<string>, pair: string, name: string)
    requires |all| > |pairs| && all[..|pairs|] == pairs && all[|pairs|] == pair && (name == "page" || name == "per_page")
    requires IsPair(pair, name) && Has(pairs, name)
    ensures !GreenPairs(all)
  {
    hide IsPair;
    var k :| 0 <= k < |pairs| && IsPair(pairs[k], name);
    assert all[k] == pairs[k];
    assert NamesRepeat(all[k], all[|pairs|]);
  }

  lemma PairsGrow(pairs: seq<string>, pair: string)
    requires pairs != [] ==> GreenPairs(pairs)
    requires Listed(pair)
    requires forall k :: 0 <= k < |pairs| ==> !NamesRepeat(pairs[k], pair)
    ensures GreenPairs(pairs + [pair])
  {
    hide Listed, NamesRepeat;
    var more := pairs + [pair];
    assert forall k :: 0 <= k < |pairs| ==> more[k] == pairs[k];
  }

  function Mark(path: string): (k: nat)
    ensures k <= |path| && '?' !in path[..k] && (k < |path| ==> path[k] == '?')
  {
    if path == [] || path[0] == '?' then 0
    else
      var k := 1 + Mark(path[1..]);
      assert path[..k] == [path[0]] + path[1..][..k - 1];
      k
  }

  ghost predicate Routed(path: string) {
    && 1 <= |path| <= PATH_MAX
    && GreenRow(path[..Mark(path)])
    && (Mark(path) < |path| ==> GreenPairs(Split(path[Mark(path) + 1..])))
  }

  /** The classifier: GREEN or, by absence, RED. */
  method RoutePath(path: string) returns (green: bool)
    ensures green <==> Routed(path)
  {
    hide GreenPairs, HasBase;
    if |path| == 0 || |path| > PATH_MAX { return false; }
    var plen := ScanTo(path, 0, '?');
    MarkIsFirst(path, plen);
    if plen < |path| {
      var ok := QueryOk(path[plen + 1..]);
      if !ok { return false; }
    }
    var row := path[..plen];
    var i := 0;
    while i < |GREEN_EXACT|
      invariant 0 <= i <= |GREEN_EXACT|
      invariant forall j :: 0 <= j < i ==> row != GREEN_EXACT[j]
    {
      if row == GREEN_EXACT[i] { return true; }
      i := i + 1;
    }
    i := 0;
    while i < |GREEN_ID_BASE|
      invariant 0 <= i <= |GREEN_ID_BASE|
      invariant forall j :: 0 <= j < i ==> !HasBase(row, GREEN_ID_BASE[j])
    {
      if HasBase(row, GREEN_ID_BASE[i]) { return true; }
      i := i + 1;
    }
    green := false;
  }

  lemma MarkIsFirst(path: string, k: nat)
    requires k <= |path| && (forall i :: 0 <= i < k ==> path[i] != '?') && (k < |path| ==> path[k] == '?')
    ensures Mark(path) == k
  {
    var m := Mark(path);
    assert forall i :: 0 <= i < m ==> path[i] == path[..m][i];
  }

  // ---- The router accepts exactly the grammar ----

  lemma {:induction false} JoinedSplit(q: string)
    ensures Joined(Split(q)) == q
  {
    if q != [] {
      var rest := Split(q[1..]);
      JoinedSplit(q[1..]);
      if q[0] == '&' {
        JoinedFront([""] , rest);
      } else {
        JoinedHead([q[0]], rest);
      }
      assert q == [q[0]] + q[1..];
    }
  }

  lemma {:induction false} JoinedFront(a: seq<string>, rest: seq<string>)
    requires a != [] && rest != []
    ensures Joined(a + rest) == Joined(a) + "&" + Joined(rest)
  {
    if |rest| == 1 {
      assert (a + rest)[..|a|] == a;
    } else {
      var front := rest[..|rest| - 1];
      JoinedFront(a, front);
      assert (a + rest)[..|a + rest| - 1] == a + front;
    }
  }

  lemma {:induction false} JoinedHead(c: string, rest: seq<string>)
    requires rest != []
    ensures Joined([c + rest[0]] + rest[1..]) == c + Joined(rest)
  {
    if |rest| == 1 {
      assert [c + rest[0]] + rest[1..] == [c + rest[0]];
    } else {
      var front := rest[..|rest| - 1];
      JoinedHead(c, front);
      var all := [c + rest[0]] + rest[1..];
      assert all[..|all| - 1] == [c + front[0]] + front[1..];
    }
  }

  lemma {:induction false} SplitJoined(pairs: seq<string>)
    requires pairs != [] && forall i :: 0 <= i < |pairs| ==> '&' !in pairs[i]
    ensures Split(Joined(pairs)) == pairs
    decreases |pairs|
  {
    if |pairs| == 1 {
      SplitFirst(pairs[0], |pairs[0]|);
    } else {
      var rest := pairs[1..];
      SplitJoined(rest);
      JoinedFront([pairs[0]], rest);
      assert [pairs[0]] + rest == pairs;
      var q := Joined(pairs);
      assert q == pairs[0] + "&" + Joined(rest);
      SplitFirst(q, |pairs[0]|);
      assert q[|pairs[0]| + 1..] == Joined(rest) && q[..|pairs[0]|] == pairs[0];
    }
  }

  lemma ListedHasNoSeparator(pair: string)
    requires Listed(pair)
    ensures '&' !in pair
  {
    var n := if IsPair(pair, "page") then 4 else 8;
    assert pair == pair[..n] + [pair[n]] + pair[n + 1..];
    var tail := pair[n + 1..];
    assert forall i :: 0 <= i < |tail| ==> IsDigit(tail[i]);
    assert '&' !in "page" && '&' !in "per_page";
  }

  lemma RowHasNoMark(row: string)
    requires GreenRow(row)
    ensures '?' !in row && row != []
  {
    hide HasBase;
    TablesHaveNoMark();
    if i :| 0 <= i < |GREEN_ID_BASE| && HasBase(row, GREEN_ID_BASE[i]) {
      BaseHasNoMark(row, GREEN_ID_BASE[i]);
    }
  }

  lemma TablesHaveNoMark()
    ensures forall i :: 0 <= i < |GREEN_ID_BASE| ==> '?' !in GREEN_ID_BASE[i]
    ensures forall i :: 0 <= i < |GREEN_EXACT| ==> '?' !in GREEN_EXACT[i] && GREEN_EXACT[i] != []
  {
  }

  lemma BaseHasNoMark(row: string, base: string)
    requires HasBase(row, base) && '?' !in base
    ensures '?' !in row && row != []
  {
    var n := |base|;
    assert row == row[..n] + row[n..];
    assert forall j :: 0 <= j < |row[n..]| ==> IsDigit(row[n..][j]);
  }

  /** GREEN means exactly: a listed row with no query, or with listed pairs of distinct names. */
  lemma RouterAcceptsExactlyTheGrammar(path: string)
    ensures Routed(path) <==> exists row, pairs :: GreenPath(path, row, pairs)
  {
    hide GreenRow, GreenPairs, Joined, Split, Mark;
    if Routed(path) {
      var k := Mark(path);
      var row := path[..k];
      var pairs := if k < |path| then Split(path[k + 1..]) else [];
      if k < |path| {
        JoinedSplit(path[k + 1..]);
        assert path == row + "?" + path[k + 1..];
      } else {
        assert path == row;
      }
      assert GreenPath(path, row, pairs);
    }
    if row, pairs :| GreenPath(path, row, pairs) {
      GrammarIsRouted(path, row, pairs);
    }
  }

  lemma GrammarIsRouted(path: string, row: string, pairs: seq<string>)
    requires GreenPath(path, row, pairs)
    ensures Routed(path)
  {
    hide GreenRow, Joined, Split, Mark, Listed, NamesRepeat;
    GreenIsShort(path, row, pairs);
    RowHasNoMark(row);
    if pairs == [] {
      MarkIsFirst(path, |path|);
      assert path[..|path|] == path;
    } else {
      MarkIsFirst(path, |row|);
      assert path[..|row|] == row && path[|row| + 1..] == Joined(pairs);
      forall i | 0 <= i < |pairs| ensures '&' !in pairs[i] { ListedHasNoSeparator(pairs[i]); }
      SplitJoined(pairs);
    }
  }
}
