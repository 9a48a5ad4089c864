/** The bounded multiple-choice quiz built by `create_poll` and `birthday`
    (the two copies of the same code in roboclic.py). Random draws are
    parameters: `sample` is the index list `random.sample` picks and `slot`
    the value `random.randint(0, LIMIT - 1)` returns. */
module Quiz {
  import opened Wrappers
  import opened Registry

  /** Maximum number of options in a quiz poll. */
  const LIMIT: nat := 10

  datatype Quiz = Quiz(choices: seq<string>, answerId: nat)

  datatype QuizError =
    | NotInList          // `list.remove` of a missing value (ValueError)
    | PopulationNotSequence  // `random.sample` given a `dict_values` view (TypeError)
    | EmptyRegistry      // drawing one id from an empty registry (ValueError)
    | NoBirthday         // the drawn id has no birthday (KeyError)

  /** What `random.sample(population, k)` promises of the indices it draws:
      k of them, all in range, none twice. */
  predicate IsSample(idx: seq<nat>, population: nat, k: nat) {
    && |idx| == k
    && (forall j :: 0 <= j < |idx| ==> idx[j] < population)
    && (forall j, l :: 0 <= j < l < |idx| ==> idx[j] != idx[l])
  }

  /** `list.remove(x)`: the list without the first occurrence of `x`. */
  function RemoveFirst(s: seq<string>, x: string): (r: seq<string>)
    requires x in s
    ensures |r| == |s| - 1
  {
    if s[0] == x then s[1..] else [s[0]] + RemoveFirst(s[1..], x)
  }

  /** `list.remove(x)` takes out the first occurrence of `x`, at `i`, and keeps
      the other items in their order. */
  predicate RemovedAt(s: seq<string>, x: string, i: int, r: seq<string>) {
    0 <= i < |s| && s[i] == x && x !in s[..i] && r == s[..i] + s[i + 1..]
  }

  lemma {:induction false} RemoveFirstAt(s: seq<string>, x: string)
    requires x in s
    ensures exists i :: RemovedAt(s, x, i, RemoveFirst(s, x))
  {
    if s[0] == x {
      assert RemovedAt(s, x, 0, RemoveFirst(s, x));
    } else {
      var t := s[1..];
      assert x in t;
      RemoveFirstAt(t, x);
      var i' :| RemovedAt(t, x, i', RemoveFirst(t, x));
      assert s[..i' + 1] == [s[0]] + t[..i'];
      assert s[i' + 2..] == t[i' + 1..];
      assert RemovedAt(s, x, i' + 1, RemoveFirst(s, x));
    }
  }

  /** The elements of `s` at the drawn indices, in draw order. */
  function Pick(s: seq<string>, idx: seq<nat>): (r: seq<string>)
    requires forall j :: 0 <= j < |idx| ==> idx[j] < |s|
    ensures |r| == |idx| && forall j :: 0 <= j < |idx| ==> r[j] == s[idx[j]]
  {
    seq(|idx|, j requires 0 <= j < |idx| => s[idx[j]])
  }

  /** `list.insert(i, x)` for an index within the list. */
  function InsertAt(s: seq<string>, i: nat, x: string): (r: seq<string>)
    requires i <= |s|
    ensures |r| == |s| + 1 && r[i] == x
    ensures forall j :: 0 <= j < i ==> r[j] == s[j]
    ensures forall j :: i <= j < |s| ==> r[j + 1] == s[j]
    ensures multiset(r) == multiset(s) + multiset{x}
  {
    assert s == s[..i] + s[i..];
    s[..i] + [x] + s[i..]
  }

  /** The quiz of the large branch, as a function of the draws. */
  function LargeQuiz(names: seq<string>, username: string, sample: seq<nat>, slot: nat): Quiz
    requires username in names
    requires IsSample(sample, |names| - 1, LIMIT - 1) && slot < LIMIT
  {
    Quiz(InsertAt(Pick(RemoveFirst(names, username), sample), slot, username), slot)
  }

  /** The draws are valid whenever the large branch is taken. */
  predicate DrawsValid(names: seq<string>, sample: seq<nat>, slot: int) {
    |names| > LIMIT ==> IsSample(sample, |names| - 1, LIMIT - 1) && 0 <= slot < LIMIT
  }

  /** The quiz-choice code of roboclic.py:214-222 on the name list
      `names == list(OPTIONS.values())` and the correct name `username`.
      With more than LIMIT names it removes `username` once, samples LIMIT-1
      decoys and inserts `username` at `slot`; otherwise `random.sample` is
      called on a `dict_values` view, which raises. */
  method BuildChoices(names: seq<string>, username: string, sample: seq<nat>, slot: int)
    returns (r: Result<Quiz, QuizError>)
    requires DrawsValid(names, sample, slot)
    ensures |names| <= LIMIT ==> r == Err(PopulationNotSequence)
    ensures |names| > LIMIT && username !in names ==> r == Err(NotInList)
    ensures |names| > LIMIT && username in names ==> r == Ok(LargeQuiz(names, username, sample, slot))
    ensures r.Ok? ==>
      && |r.value.choices| == LIMIT
      && r.value.answerId == slot < LIMIT
      && r.value.choices[r.value.answerId] == username
      && multiset(r.value.choices) <= multiset(names)
  {
    if |names| <= LIMIT {
      return Err(PopulationNotSequence);
    }
    var options := names;
    if username !in options {
      return Err(NotInList);
    }
    options := RemoveFirst(options, username);      // one copy of the correct name out
    var choices := Pick(options, sample);           // the LIMIT - 1 decoys
    choices := InsertAt(choices, slot, username);   // the correct name in at the drawn slot
    r := Ok(Quiz(choices, slot));
    LargeQuizShape(names, username, sample, slot);
  }

  /** `list.remove` takes exactly one occurrence of `x` out of the list. */
  lemma {:induction false} RemoveFirstMultiset(s: seq<string>, x: string)
    requires x in s
    ensures multiset(RemoveFirst(s, x)) == multiset(s) - multiset{x}
  {
    if s[0] != x {
      RemoveFirstMultiset(s[1..], x);
      assert s == [s[0]] + s[1..];
    } else {
      assert s == [x] + s[1..];
    }
  }

  /** `Pick` with the index `i` taken out of the list: later indices shift down. */
  function Shift(idx: seq<nat>, i: nat): (r: seq<nat>)
    requires forall j :: 0 <= j < |idx| ==> idx[j] != i
  {
    seq(|idx|, j requires 0 <= j < |idx| => if idx[j] < i then idx[j] else idx[j] - 1)
  }

  /** Picking from the list without position `i`, at the shifted indices,
      picks the same elements. */
  lemma PickRemoved(s: seq<string>, idx: seq<nat>, i: nat)
    requires i < |s| && forall j :: 0 <= j < |idx| ==> idx[j] < |s| && idx[j] != i
    ensures Pick(s, idx) == Pick(s[..i] + s[i + 1..], Shift(idx, i))
  {
  }

  /** Taking out position `i` takes one `s[i]` out of the multiset. */
  lemma RemovedMultiset(s: seq<string>, i: nat)
    requires i < |s|
    ensures multiset(s) == multiset(s[..i] + s[i + 1..]) + multiset{s[i]}
  {
    assert s == s[..i] + [s[i]] + s[i + 1..];
  }

  /** Drawing without replacement: the drawn elements form a sub-multiset
      of the population. */
  lemma {:induction false} PickSubMultiset(s: seq<string>, idx: seq<nat>)
    requires IsSample(idx, |s|, |idx|)
    ensures multiset(Pick(s, idx)) <= multiset(s)
    decreases |idx|
  {
    if idx != [] {
      var i := idx[0];
      var rest := idx[1..];
      var s' := s[..i] + s[i + 1..];
      var rest' := Shift(rest, i);
      assert IsSample(rest', |s'|, |rest'|) by {
        forall j, l | 0 <= j < l < |rest'| ensures rest'[j] != rest'[l] {
          assert rest[j] != rest[l];
        }
      }
      PickRemoved(s, rest, i);
      PickSubMultiset(s', rest');
      assert Pick(s, idx) == [s[i]] + Pick(s, rest);
      RemovedMultiset(s, i);
    }
  }

  lemma {:induction false} DistinctCount(s: seq<string>, v: string)
    requires Distinct(s)
    ensures multiset(s)[v] <= 1
  {
    if s != [] {
      assert Distinct(s[1..]);
      DistinctCount(s[1..], v);
      assert s == [s[0]] + s[1..];
      if s[0] == v {
        assert v !in s[1..] by {
          forall j | 0 <= j < |s| - 1 ensures s[1..][j] != v { assert s[j + 1] != s[0]; }
        }
      }
    }
  }

  /** A sub-multiset of a list without repetitions has none either. */
  lemma SubMultisetDistinct(t: seq<string>, s: seq<string>)
    requires multiset(t) <= multiset(s) && Distinct(s)
    ensures Distinct(t)
  {
    forall i, j | 0 <= i < j < |t| ensures t[i] != t[j] {
      if t[i] == t[j] {
        var v := t[i];
        assert t == t[..i] + [v] + t[i + 1..j] + [v] + t[j + 1..];
        assert multiset(t)[v] >= 2;
        DistinctCount(s, v);
        assert false;
      }
    }
  }

  /** Shape of the large-branch quiz (roboclic.py:215-219): exactly LIMIT
      choices, the correct name at `answerId`, the other LIMIT-1 entries the
      drawn decoys, taken without replacement from the name list less one
      occurrence of the correct name. */
  lemma LargeQuizShape(names: seq<string>, username: string, sample: seq<nat>, slot: nat)
    requires username in names
    requires IsSample(sample, |names| - 1, LIMIT - 1) && slot < LIMIT
    ensures var q := LargeQuiz(names, username, sample, slot);
      && |q.choices| == LIMIT
      && q.answerId == slot < LIMIT
      && q.choices[q.answerId] == username
      && q.choices[..slot] + q.choices[slot + 1..] == Pick(RemoveFirst(names, username), sample)
      && multiset(q.choices[..slot] + q.choices[slot + 1..]) <= multiset(names) - multiset{username}
      && multiset(q.choices) <= multiset(names)
  {
    var q := LargeQuiz(names, username, sample, slot);
    RemoveFirstMultiset(names, username);
    var rest := RemoveFirst(names, username);
    var decoys := Pick(rest, sample);
    PickSubMultiset(rest, sample);
    assert q.choices == decoys[..slot] + [username] + decoys[slot..];
    assert q.choices[..slot] == decoys[..slot];
    assert q.choices[slot + 1..] == decoys[slot..];
    assert decoys == decoys[..slot] + decoys[slot..];
    assert multiset(q.choices) == multiset(decoys) + multiset{username};
    assert username in multiset(names);
  }

  /** With distinct display names the correct name is never drawn as a decoy
      and all LIMIT choices are different. */
  lemma LargeQuizDistinct(names: seq<string>, username: string, sample: seq<nat>, slot: nat)
    requires username in names && Distinct(names)
    requires IsSample(sample, |names| - 1, LIMIT - 1) && slot < LIMIT
    ensures var q := LargeQuiz(names, username, sample, slot);
      && Distinct(q.choices)
      && username !in q.choices[..slot] + q.choices[slot + 1..]
  {
    var q := LargeQuiz(names, username, sample, slot);
    LargeQuizShape(names, username, sample, slot);
    SubMultisetDistinct(q.choices, names);
    var decoys := q.choices[..slot] + q.choices[slot + 1..];
    DistinctCount(names, username);
    assert multiset(decoys)[username] == 0;
  }

  /** A quiz poll as handed to `send_poll`. */
  datatype QuizPoll = QuizPoll(question: string, quiz: Quiz)

  /** The `birthday` command (roboclic.py:246-270): pick a participant id
      (`keyPick` is the position of the drawn id), look up
      its display name and birthday, and quiz the group on who was born that
      day. */
  method Birthday(registry: Registry, birthdays: map<string, string>, keyPick: nat,
                  sample: seq<nat>, slot: int)
    returns (r: Result<QuizPoll, QuizError>)
    requires Valid(registry)
    requires |registry| > 0 ==> keyPick < |registry|
    requires DrawsValid(Names(registry), sample, slot)
    ensures |registry| == 0 ==> r == Err(EmptyRegistry)
    ensures |registry| > 0 && registry[keyPick].id !in birthdays ==> r == Err(NoBirthday)
    ensures |registry| > 0 && registry[keyPick].id in birthdays && |registry| <= LIMIT ==>
      r == Err(PopulationNotSequence)
    ensures |registry| > 0 && registry[keyPick].id in birthdays && |registry| > LIMIT ==>
      var e := registry[keyPick];
      r.Ok? && r.value.question == "Qui est né le " + birthdays[e.id] + " ?"
      && r.value.quiz == LargeQuiz(Names(registry), e.name, sample, slot)
  {
    if |registry| == 0 {
      return Err(EmptyRegistry);
    }
    var userId := registry[keyPick].id;
    GetAt(registry, keyPick);
    var username := Get(registry, userId).value;
    if userId !in birthdays {
      return Err(NoBirthday);
    }
    var date := birthdays[userId];
    var question := "Qui est né le " + date + " ?";
    GetInNames(registry, userId);
    var choices := BuildChoices(Names(registry), username, sample, slot);
    match choices {
      case Ok(q) => r := Ok(QuizPoll(question, q));
      case Err(e) => r := Err(e);
    }
  }
}
