/** The `jul` command (roboclic.py:119-138): a direct-attribution quiz built
    from a lyrics corpus whose blocks are separated by blank lines and tagged
    `[Couplet d : NAME]`. */
module Jul {
  import opened Wrappers
  import opened Quiz

  /** One blank-line-separated block: the name its tag gives, and its lines
      after the first (the tag line). */
  datatype Block = Block(tag: string, lyrics: seq<string>)

  datatype JulQuiz = JulQuiz(punchline: string, poll: QuizPoll)

  datatype JulError = NoLyrics  // drawing a punchline from a block with no lyrics (IndexError)

  /** The fixed text before the verse number in a tag. */
  const TagOpen: string := "[Couplet "
  /** The fixed text between the verse number and the name. */
  const TagSep: string := " : "

  /** `\d`, for ASCII digits. */
  predicate IsDigit(c: char) {
    '0' <= c <= '9'
  }

  /** The tag line `[Couplet d : NAME]`. */
  function TagLine(d: char, name: string): string {
    TagOpen + [d] + TagSep + name + "]"
  }

  /** Length of `[Couplet d : `. */
  const HeadLength: nat := |TagOpen| + 1 + |TagSep|

  /** Does `[Couplet d : ` start at position `p` of `s`? */
  predicate HeadAt(s: string, p: nat) {
    p + HeadLength <= |s| && s[p..p + |TagOpen|] == TagOpen
    && IsDigit(s[p + |TagOpen|]) && s[p + |TagOpen| + 1..p + HeadLength] == TagSep
  }

  /** The non-greedy `(.*?)\]`: the text from `k` up to the first `]`, failing
      at a newline (`.` does not match it) or at the end of the text. */
  function NameFrom(s: string, k: nat): (o: Option<string>)
    requires k <= |s|
    ensures o.Some? ==> ']' !in o.value && '\n' !in o.value
    ensures o.Some? ==> k + |o.value| < |s| && s[k..k + |o.value|] == o.value && s[k + |o.value|] == ']'
    decreases |s| - k
  {
    if k == |s| || s[k] == '\n' then None
    else if s[k] == ']' then Some("")
    else match NameFrom(s, k + 1)
      case None => None
      case Some(n) => Some([s[k]] + n)
  }

  /** The tag pattern matched at position `p`: the fixed opening, one digit,
      the separator, then the shortest name closed by `]`. */
  function MatchAt(s: string, p: nat): Option<string> {
    if HeadAt(s, p) then NameFrom(s, p + HeadLength) else None
  }

  /** `re.search(regex, s)` from position `p` on: the group of the leftmost match. */
  function SearchFrom(s: string, p: nat): Option<string>
    decreases |s| - p
  {
    if p >= |s| then None
    else if MatchAt(s, p).Some? then MatchAt(s, p)
    else SearchFrom(s, p + 1)
  }

  /** The name in the first tag of a line, if it has one. */
  function ParseTag(line: string): (o: Option<string>)
    ensures o.Some? ==> exists q, d :: IsDigit(d) && OccursAt(line, q, TagLine(d, o.value))
  {
    var o := SearchFrom(line, 0);
    if o.Some? then ParseTagFound(line, 0); o else o
  }

  /** Parsing a well-formed tag line gives back its name: the name ends at the
      first `]`, so it may contain neither `]` nor a newline. */
  lemma ParseTagLine(d: char, name: string)
    requires IsDigit(d) && ']' !in name && '\n' !in name
    ensures ParseTag(TagLine(d, name)) == Some(name)
  {
    var s := TagLine(d, name);
    assert HeadAt(s, 0);
    NameFromTo(s, HeadLength, |s| - 1);
    assert s[HeadLength..|s| - 1] == name;
  }

  lemma {:induction false} NameFromTo(s: string, k: nat, e: nat)
    requires k <= e < |s| && s[e] == ']'
    requires forall j :: k <= j < e ==> s[j] != ']' && s[j] != '\n'
    ensures NameFrom(s, k) == Some(s[k..e])
    decreases e - k
  {
    if k < e {
      NameFromTo(s, k + 1, e);
      assert s[k..e] == [s[k]] + s[k + 1..e];
    }
  }

  /** A complete tag line standing at `q` matches there. */
  lemma MatchAtTag(s: string, q: nat, d: char, n: string)
    requires IsDigit(d) && ']' !in n && '\n' !in n && OccursAt(s, q, TagLine(d, n))
    ensures MatchAt(s, q) == Some(n)
  {
    var t := TagLine(d, n);
    var w := s[q..q + |t|];
    var m := q + HeadLength;
    assert t == TagOpen + [d] + TagSep + n + "]";
    assert t[..|TagOpen|] == TagOpen;
    assert t[|TagOpen| + 1..HeadLength] == TagSep;
    assert t[HeadLength..HeadLength + |n|] == n;
    assert s[q..q + |TagOpen|] == w[..|TagOpen|];
    assert s[q + |TagOpen|] == w[|TagOpen|] == d;
    SliceOfSlice(s, q, |TagOpen| + 1, HeadLength, |t|);
    assert HeadAt(s, q);
    SliceOfSlice(s, q, HeadLength, HeadLength + |n|, |t|);
    forall j | m <= j < m + |n| ensures s[j] != ']' && s[j] != '\n' {
      assert s[j] == s[m..m + |n|][j - m];
    }
    assert s[m + |n|] == w[|t| - 1] == t[|t| - 1] == ']';
    NameFromTo(s, m, m + |n|);
  }

  lemma SliceOfSlice(s: string, q: nat, a: nat, b: nat, e: nat)
    requires q + e <= |s| && a <= b <= e
    ensures s[q..q + e][a..b] == s[q + a..q + b]
  {
    var u := s[q..q + e][a..b];
    forall j | 0 <= j < b - a ensures u[j] == s[q + a..q + b][j] {
      assert u[j] == s[q + a + j];
    }
  }

  /** Positions without a match are skipped by the search. */
  lemma {:induction false} SearchSkips(s: string, p: nat, q: nat)
    requires p <= q && forall r :: p <= r < q ==> MatchAt(s, r).None?
    ensures SearchFrom(s, p) == SearchFrom(s, q)
    decreases q - p
  {
    if p < q {
      assert MatchAt(s, p).None?;
      assert SearchFrom(s, p) == SearchFrom(s, p + 1);
      SearchSkips(s, p + 1, q);
    }
  }

  /** `re.search` finds the leftmost tag of a line: a complete tag at `q`,
      with no match starting before it, is the one returned. */
  lemma ParseTagLeftmost(line: string, q: nat, d: char, n: string)
    requires IsDigit(d) && ']' !in n && '\n' !in n && OccursAt(line, q, TagLine(d, n))
    requires forall p :: 0 <= p < q ==> MatchAt(line, p).None?
    ensures ParseTag(line) == Some(n)
  {
    MatchAtTag(line, q, d, n);
    SearchSkips(line, 0, q);
  }

  /** A line holding a complete tag anywhere has a tag. */
  lemma {:induction false} ParseTagComplete(line: string, p: nat, q: nat, d: char, n: string)
    requires IsDigit(d) && ']' !in n && '\n' !in n && OccursAt(line, q, TagLine(d, n))
    requires p <= q
    ensures SearchFrom(line, p).Some?
    decreases q - p
  {
    if p == q {
      MatchAtTag(line, q, d, n);
    } else if MatchAt(line, p).None? {
      ParseTagComplete(line, p + 1, q, d, n);
    }
  }

  /** `t` appears in `s` at position `q`. */
  predicate OccursAt(s: string, q: nat, t: string) {
    q + |t| <= |s| && s[q..q + |t|] == t
  }

  /** A name is found only where a complete tag line for it stands in the text. */
  lemma {:induction false} ParseTagFound(s: string, p: nat)
    requires SearchFrom(s, p).Some?
    ensures exists q, d :: p <= q && IsDigit(d) && OccursAt(s, q, TagLine(d, SearchFrom(s, p).value))
    decreases |s| - p
  {
    if MatchAt(s, p).Some? {
      var n := MatchAt(s, p).value;
      var d := s[p + |TagOpen|];
      var t := TagLine(d, n);
      var m := p + HeadLength;
      assert s[p..m] == TagOpen + [d] + TagSep by {
        assert s[p..m] == s[p..p + |TagOpen|] + s[p + |TagOpen|..m];
        assert s[p + |TagOpen|..m] == [d] + s[p + |TagOpen| + 1..m];
      }
      assert s[m..m + |n| + 1] == n + "]" by {
        assert s[m..m + |n| + 1] == s[m..m + |n|] + [s[m + |n|]];
      }
      assert s[p..p + |t|] == s[p..m] + s[m..m + |n| + 1];
      assert OccursAt(s, p, t);
    } else {
      ParseTagFound(s, p + 1);
    }
  }

  /** A block given as its lines (`block.splitlines()`): `re.search` over the
      block finds the tag of its first tagged line, and the lyrics are every
      line after the first. `None` is the AttributeError of `.groups()` on a
      block without a tag. A match cannot cross a `\n`, so searching line by
      line agrees with searching the block as long as `\n` is the block's only
      line break; a tag holding another `splitlines()` break (`\f`, `\v`,
      U+2028, ...) is missed here although `re.search` would find it. */
  function ParseBlock(lines: seq<string>): (b: Option<Block>)
    ensures b.Some? ==> exists i :: (0 <= i < |lines| && ParseTag(lines[i]) == Some(b.value.tag)
                                     && forall j :: 0 <= j < i ==> ParseTag(lines[j]).None?)
    ensures b.Some? ==> |lines| > 0 && b.value.lyrics == lines[1..]
    ensures b.None? <==> forall i :: 0 <= i < |lines| ==> ParseTag(lines[i]).None?
  {
    match FirstTag(lines)
    case None => None
    case Some(t) => Some(Block(t, lines[1..]))
  }

  function FirstTag(lines: seq<string>): (o: Option<string>)
    ensures o.Some? ==> exists i :: (0 <= i < |lines| && ParseTag(lines[i]) == o
                                     && forall j :: 0 <= j < i ==> ParseTag(lines[j]).None?)
    ensures o.None? <==> forall i :: 0 <= i < |lines| ==> ParseTag(lines[i]).None?
  {
    if lines == [] then None
    else if ParseTag(lines[0]).Some? then ParseTag(lines[0])
    else
      var o := FirstTag(lines[1..]);
      assert forall i :: 0 < i < |lines| ==> lines[i] == lines[1..][i - 1];
      if o.Some? then
        var i :| 0 <= i < |lines| - 1 && ParseTag(lines[1..][i]) == o
          && forall j :: 0 <= j < i ==> ParseTag(lines[1..][j]).None?;
        assert ParseTag(lines[i + 1]) == o;
        o
      else o
  }

  /** A block written as a tag line followed by its lyrics reads back as
      that tag and those lyrics. */
  lemma ParseTaggedBlock(d: char, name: string, lyrics: seq<string>)
    requires IsDigit(d) && ']' !in name && '\n' !in name
    ensures ParseBlock([TagLine(d, name)] + lyrics) == Some(Block(name, lyrics))
  {
    ParseTagLine(d, name);
    assert ([TagLine(d, name)] + lyrics)[1..] == lyrics;
  }

  /** `re.findall(regex, ...)` over the corpus: one option per block, in
      file order, duplicates kept. */
  function Tags(song: seq<Block>): (choices: seq<string>)
    ensures |choices| == |song| && forall i :: 0 <= i < |song| ==> choices[i] == song[i].tag
  {
    seq(|song|, i requires 0 <= i < |song| => song[i].tag)
  }

  /** `list.index(x)`: the first position holding `x`. */
  function FirstIndex(s: seq<string>, x: string): (r: nat)
    requires x in s
    ensures r < |s| && s[r] == x
    ensures forall j :: 0 <= j < r ==> s[j] != x
  {
    if s[0] == x then 0 else 1 + FirstIndex(s[1..], x)
  }

  function Question(punchline: string): string {
    "Qui est l'auteur de la punchline qui suit ?\n\"" + punchline + "\""
  }

  /** The `jul` quiz for the block the draw `blockPick` selects and the lyric
      line `linePick` selects from it. */
  function Jul(song: seq<Block>, blockPick: nat, linePick: nat): (r: Result<JulQuiz, JulError>)
    requires blockPick < |song|
    requires |song[blockPick].lyrics| > 0 ==> linePick < |song[blockPick].lyrics|
    ensures r.Err? <==> song[blockPick].lyrics == []
    ensures r.Ok? ==>
      var q := r.value.poll.quiz;
      && |q.choices| == |song|
      && (forall i :: 0 <= i < |song| ==> q.choices[i] == song[i].tag)
      && q.answerId < |q.choices| && q.choices[q.answerId] == song[blockPick].tag
      && (forall j :: 0 <= j < q.answerId ==> song[j].tag != song[blockPick].tag)
      && q.answerId <= blockPick
      && r.value.punchline in song[blockPick].lyrics
      && r.value.poll.question == Question(r.value.punchline)
  {
    var block := song[blockPick];
    var choices := Tags(song);
    var artist := block.tag;
    if block.lyrics == [] then Err(NoLyrics)
    else
      var punchline := block.lyrics[linePick];
      assert choices[blockPick] == artist;
      var answerId := FirstIndex(choices, artist);
      Ok(JulQuiz(punchline, QuizPoll(Question(punchline), Quiz(choices, answerId))))
  }
}
