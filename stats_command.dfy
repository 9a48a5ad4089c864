/** The `stats` command (roboclic.py:148-162): with no argument a leaderboard
    sorted by score, with an argument the score of one normalised name. */
module StatsCommand {
  import opened Wrappers
  import opened Registry
  import opened Ledger

  // ---------------------------------------------------------------------------
  // The stable descending sort of the ledger by score

  /** Place `x` before the first entry whose score is not higher: `x` stands
      ahead of every entry it ties with, which keeps the sort stable when the
      entries are inserted from the last to the first. */
  function Insert(x: Score, s: Stats): (r: Stats)
    ensures multiset(r) == multiset(s) + multiset{x}
  {
    if s == [] || x.count >= s[0].count then [x] + s
    else
      assert s == [s[0]] + s[1..];
      [s[0]] + Insert(x, s[1..])
  }

  /** Python's stable descending sort on the score. */
  function SortByScore(s: Stats): (r: Stats)
    ensures multiset(r) == multiset(s)
  {
    if s == [] then []
    else
      assert s == [s[0]] + s[1..];
      Insert(s[0], SortByScore(s[1..]))
  }

  predicate Descending(s: Stats) {
    forall i, j :: 0 <= i < j < |s| ==> s[i].count >= s[j].count
  }

  /** The entries that have score `v`, in order. */
  function WithScore(s: Stats, v: int): Stats {
    if s == [] then []
    else if s[0].count == v then [s[0]] + WithScore(s[1..], v)
    else WithScore(s[1..], v)
  }

  lemma {:induction false} InsertDescending(x: Score, s: Stats)
    requires Descending(s)
    ensures Descending(Insert(x, s))
  {
    if s != [] && x.count < s[0].count {
      InsertDescending(x, s[1..]);
      var r := Insert(x, s);
      var t := Insert(x, s[1..]);
      assert r == [s[0]] + t;
      forall j | 1 <= j < |r| ensures r[0].count >= r[j].count {
        assert r[j] in multiset(t);
        assert r[j] == x || r[j] in multiset(s[1..]);
      }
    }
  }

  lemma {:induction false} InsertWithScore(x: Score, s: Stats, v: int)
    ensures WithScore(Insert(x, s), v) == (if x.count == v then [x] else []) + WithScore(s, v)
  {
    if s != [] && x.count < s[0].count {
      InsertWithScore(x, s[1..], v);
      assert Insert(x, s)[1..] == Insert(x, s[1..]);
    }
  }

  /** The sort orders by descending score ... */
  lemma {:induction false} SortDescending(s: Stats)
    ensures Descending(SortByScore(s))
  {
    if s != [] {
      SortDescending(s[1..]);
      InsertDescending(s[0], SortByScore(s[1..]));
    }
  }

  /** ... and keeps entries with equal scores in their stored order. */
  lemma {:induction false} SortStable(s: Stats, v: int)
    ensures WithScore(SortByScore(s), v) == WithScore(s, v)
  {
    if s != [] {
      SortStable(s[1..], v);
      InsertWithScore(s[0], SortByScore(s[1..]), v);
    }
  }

  // ---------------------------------------------------------------------------
  // The decimal text of a score

  /** The decimal digits of `n`, most significant first, without leading zeros. */
  function NatToString(n: nat): (r: string)
    ensures |r| > 0 && forall i :: 0 <= i < |r| ==> '0' <= r[i] <= '9'
    ensures |r| > 1 ==> r[0] != '0'
  {
    if n < 10 then ["0123456789"[n]]
    else NatToString(n / 10) + ["0123456789"[n % 10]]
  }

  function IntToString(n: int): (r: string) {
    if n < 0 then "-" + NatToString(-n) else NatToString(n)
  }

  /** Reads back decimal digits. */
  function DigitsValue(s: string): nat
    requires forall i :: 0 <= i < |s| ==> '0' <= s[i] <= '9'
  {
    if s == [] then 0
    else 10 * DigitsValue(s[..|s| - 1]) + (s[|s| - 1] - '0') as nat
  }

  /** The score text denotes the score. */
  lemma {:induction false} NatToStringValue(n: nat)
    ensures DigitsValue(NatToString(n)) == n
  {
    var r := NatToString(n);
    if n >= 10 {
      NatToStringValue(n / 10);
      assert r[..|r| - 1] == NatToString(n / 10);
    }
  }

  // ---------------------------------------------------------------------------
  // The leaderboard

  datatype StatsError = UnknownUser(id: string)  // a ledger id with no display name (KeyError)

  /** One leaderboard line `name: score`. */
  function Line(name: string, score: int): string {
    name + ": " + IntToString(score) + "\n"
  }

  /** Every ledger id has a display name. */
  predicate Registered(registry: Registry, s: Stats) {
    forall i :: 0 <= i < |s| ==> Get(registry, s[i].id).Some?
  }

  /** The leaderboard text for entries already in display order, or the first
      entry whose id has no display name. */
  function Board(registry: Registry, s: Stats): (r: Result<string, StatsError>)
    ensures r.Ok? <==> Registered(registry, s)
    ensures r.Ok? ==> (r.value == "" <==> s == [])
  {
    if s == [] then Ok("")
    else
      var init := s[..|s| - 1];
      var last := s[|s| - 1];
      RegisteredSnoc(registry, s);
      match Board(registry, init)
      case Err(e) => Err(e)
      case Ok(text) =>
        match Get(registry, last.id)
        case None => Err(UnknownUser(last.id))
        case Some(name) => Ok(text + Line(name, last.count))
  }

  lemma RegisteredSnoc(registry: Registry, s: Stats)
    requires s != []
    ensures Registered(registry, s) <==>
      Registered(registry, s[..|s| - 1]) && Get(registry, s[|s| - 1].id).Some?
  {
    var init := s[..|s| - 1];
    assert forall i :: 0 <= i < |init| ==> init[i] == s[i];
  }

  /** Extending a board by one entry adds that entry's line, or fails on it. */
  lemma BoardStep(registry: Registry, s: Stats, i: nat, text: string)
    requires i < |s| && Board(registry, s[..i]) == Ok(text)
    ensures Board(registry, s[..i + 1]) ==
      match Get(registry, s[i].id)
      case None => Err(UnknownUser(s[i].id))
      case Some(name) => Ok(text + Line(name, s[i].count))
  {
    assert s[..i + 1][..i] == s[..i];
  }

  /** A failing prefix makes the whole board fail with the same error. */
  lemma {:induction false} BoardPrefixErr(registry: Registry, s: Stats, k: nat)
    requires k <= |s| && Board(registry, s[..k]).Err?
    ensures Board(registry, s) == Board(registry, s[..k])
    decreases |s| - k
  {
    if k < |s| {
      assert s[..k + 1][..k] == s[..k];
      BoardPrefixErr(registry, s, k + 1);
    } else {
      assert s[..k] == s;
    }
  }

  lemma RegisteredPermutation(registry: Registry, a: Stats, b: Stats)
    requires multiset(a) == multiset(b)
    ensures Registered(registry, a) <==> Registered(registry, b)
    ensures a == [] <==> b == []
  {
    assert |multiset(a)| == |multiset(b)|;
    if Registered(registry, a) {
      forall i | 0 <= i < |b| ensures Get(registry, b[i].id).Some? {
        assert b[i] in multiset(a);
        var j :| 0 <= j < |a| && a[j] == b[i];
      }
    }
    if Registered(registry, b) {
      forall i | 0 <= i < |a| ensures Get(registry, a[i].id).Some? {
        assert a[i] in multiset(b);
        var j :| 0 <= j < |b| && b[j] == a[i];
      }
    }
  }

  /** `stats` with no argument: one line per ledger entry, highest score
      first, ties in stored order; `No stat available` for an empty ledger. */
  method Leaderboard(registry: Registry, stats: Stats) returns (r: Result<string, StatsError>)
    ensures r.Ok? <==> Registered(registry, stats)
    ensures stats == [] ==> r == Ok("No stat available")
    ensures stats != [] ==> r == Board(registry, SortByScore(stats))
  {
    var sorted := SortByScore(stats);
    var text := "";
    var i := 0;
    while i < |sorted|
      invariant 0 <= i <= |sorted|
      invariant Board(registry, sorted[..i]) == Ok(text)
    {
      BoardStep(registry, sorted, i, text);
      var name := Get(registry, sorted[i].id);
      if name.None? {
        BoardPrefixErr(registry, sorted, i + 1);
        RegisteredPermutation(registry, sorted, stats);
        return Err(UnknownUser(sorted[i].id));
      }
      text := text + Line(name.value, sorted[i].count);
      i := i + 1;
    }
    assert sorted[..i] == sorted;
    RegisteredPermutation(registry, sorted, stats);
    if text == "" {
      text := "No stat available";
    }
    r := Ok(text);
  }

  // ---------------------------------------------------------------------------
  // stats NAME

  /** `str.lower()` for ASCII letters and the three accented capitals the
      lookup cares about. */
  function LowerChar(c: char): char {
    if 'A' <= c <= 'Z' then (c as int + 32) as char
    else if c == 'É' then 'é'
    else if c == 'Ï' then 'ï'
    else if c == 'Ë' then 'ë'
    else c
  }

  function Lower(s: string): string {
    seq(|s|, i requires 0 <= i < |s| => LowerChar(s[i]))
  }

  /** `str.replace(a, b)` for single characters. */
  function Replace(s: string, a: char, b: char): string {
    seq(|s|, i requires 0 <= i < |s| => if s[i] == a then b else s[i])
  }

  /** Lower-case the query, then replace each `é` by `e`, each `ï` by `i` and
      each `ë` by `e`, in that order. */
  function Normalize(s: string): (k: string)
    ensures |k| == |s|
    ensures forall i :: 0 <= i < |s| ==> k[i] == FoldChar(s[i])
  {
    Replace(Replace(Replace(Lower(s), 'é', 'e'), 'ï', 'i'), 'ë', 'e')
  }

  /** A character as the chain of calls leaves it, written as one table. */
  function FoldChar(c: char): char {
    if 'A' <= c <= 'Z' then (c as int + 32) as char
    else if c in {'é', 'É', 'ë', 'Ë'} then 'e'
    else if c in {'ï', 'Ï'} then 'i'
    else c
  }

  /** A normalised key has no capital ASCII letter and no `é`, `ï` or `ë`,
      keeps the query's length, and folds each character on its own. */
  lemma NormalizeSpec(s: string)
    ensures var k := Normalize(s);
      && |k| == |s|
      && (forall i :: 0 <= i < |s| ==> k[i] == FoldChar(s[i]))
      && (forall i :: 0 <= i < |k| ==> k[i] !in {'é', 'ï', 'ë'} && !('A' <= k[i] <= 'Z'))
  {
  }

  /** Normalising twice is normalising once. */
  lemma NormalizeIdempotent(s: string)
    ensures Normalize(Normalize(s)) == Normalize(s)
  {
    NormalizeSpec(s);
    NormalizeSpec(Normalize(s));
  }

  /** How the reply names the participant: the registered display name, or
      `query_user.title()` (left uninterpreted) for an unknown key. */
  datatype Shown = DisplayName(name: string) | TitleOf(query: string)

  datatype StatReply = StatReply(who: Shown, score: int)

  /** `stats` with an argument: the normalised key's display name and score,
      0 when the ledger has no entry for it. */
  function Lookup(registry: Registry, stats: Stats, arg: string): (r: StatReply)
    ensures var key := Normalize(arg);
      && (r.who.DisplayName? <==> key in Ids(registry))
      && (r.who.DisplayName? ==> Get(registry, key) == Some(r.who.name))
      && (r.who.TitleOf? ==> r.who.query == key)
      && (key !in IdsOf(stats) ==> r.score == 0)
      && (forall i :: FirstHolder(stats, key, i) ==> r.score == stats[i].count)
  {
    var key := Normalize(arg);
    var who := match Get(registry, key)
      case Some(n) => DisplayName(n)
      case None => TitleOf(key);
    CountAbsent(stats, key);
    forall i | FirstHolder(stats, key, i) ensures CountOf(stats, key) == stats[i].count {
      CountFirst(stats, key, i);
    }
    StatReply(who, CountOf(stats, key))
  }

  /** Position `i` is the first ledger entry whose id is `key`. */
  predicate FirstHolder(s: Stats, key: string, i: int) {
    0 <= i < |s| && s[i].id == key && forall j :: 0 <= j < i ==> s[j].id != key
  }

  /** `stats.get(key, 0)` for a held key is the count stored under it. */
  lemma {:induction false} CountFirst(s: Stats, key: string, i: int)
    requires FirstHolder(s, key, i)
    ensures CountOf(s, key) == s[i].count
  {
    if i > 0 {
      assert s[0].id != key;
      assert FirstHolder(s[1..], key, i - 1) by {
        forall j | 0 <= j < i - 1 ensures s[1..][j].id != key {
          assert s[1..][j] == s[j + 1];
        }
      }
      CountFirst(s[1..], key, i - 1);
    }
  }

  lemma {:induction false} CountAbsent(s: Stats, key: string)
    ensures key !in IdsOf(s) ==> CountOf(s, key) == 0
  {
    if s != [] {
      assert IdsOf(s) == [s[0].id] + IdsOf(s[1..]);
      CountAbsent(s[1..], key);
    }
  }

  /** After an increment for the normalised key, the lookup reports one more. */
  lemma LookupAfterIncrement(registry: Registry, stats: Stats, arg: string)
    ensures Lookup(registry, Bumped(stats, Normalize(arg)), arg).score == Lookup(registry, stats, arg).score + 1
  {
    BumpedCount(stats, Normalize(arg), Normalize(arg));
  }
}
