/**
 * The command helpers of src/plugin/vragechat/cef/Chat.tsx: `findSimilarWords`
 * (the ranked suggestions shown while typing a command) and
 * `getCommandDescription` (the description shown beside each suggestion).
 */
module ChatCommands {
  import opened Wrappers
  import opened Strings
  import opened EditDistance

  // ---------------------------------------------------------------- findSimilarWords

  /** A command name that contains the typed word, its distance to it, and its position in the list. */
  datatype Ranked = Ranked(name: string, distance: nat, index: nat)

  /**
   * The order of the stable sort by distance: smaller distance first, and on
   * equal distance the earlier position in the list first.
   */
  predicate Before(a: Ranked, b: Ranked)
  {
    a.distance < b.distance || (a.distance == b.distance && a.index < b.index)
  }

  predicate Sorted(rs: seq<Ranked>)
  {
    forall i, j :: 0 <= i < j < |rs| ==> Before(rs[i], rs[j])
  }

  /** `list.filter(c => c.includes(word)).map(c => ({c, distance}))`, each remembering its position. */
  function Candidates(word: string, list: seq<string>): seq<Ranked>
  {
    if |list| == 0 then []
    else
      var last := list[|list| - 1];
      Candidates(word, list[..|list| - 1])
      + (if Includes(last, word) then [Ranked(last, Dist(word, last), |list| - 1)] else [])
  }

  /**
   * The candidates are exactly the list entries containing the word, with
   * their distance and position, in list order.
   */
  lemma {:induction false} CandidatesExactly(word: string, list: seq<string>)
    ensures forall r :: r in Candidates(word, list) ==>
      r.index < |list| && r.name == list[r.index] && Includes(r.name, word) && r.distance == Dist(word, r.name)
    ensures forall k :: 0 <= k < |list| && Includes(list[k], word) ==>
      Ranked(list[k], Dist(word, list[k]), k) in Candidates(word, list)
    ensures forall i, j :: 0 <= i < j < |Candidates(word, list)| ==>
      Candidates(word, list)[i].index < Candidates(word, list)[j].index
    decreases |list|
  {
    if |list| > 0 {
      var init := list[..|list| - 1];
      CandidatesExactly(word, init);
      assert forall k :: 0 <= k < |init| ==> init[k] == list[k];
    }
  }

  /** Insert `x` in front of the first element it comes before. */
  function Insert(x: Ranked, rs: seq<Ranked>): (r: seq<Ranked>)
    ensures multiset(r) == multiset(rs) + multiset{x}
  {
    if |rs| == 0 then [x]
    else if Before(x, rs[0]) then [x] + rs
    else
      assert rs == [rs[0]] + rs[1..];
      [rs[0]] + Insert(x, rs[1..])
  }

  lemma {:induction false} InsertSorted(x: Ranked, rs: seq<Ranked>)
    requires Sorted(rs)
    requires forall r :: r in rs ==> r.index != x.index
    ensures Sorted(Insert(x, rs))
    decreases |rs|
  {
    if |rs| > 0 && !Before(x, rs[0]) {
      InsertSorted(x, rs[1..]);
      var r := Insert(x, rs[1..]);
      forall y | y in r
        ensures Before(rs[0], y)
      {
        assert y in multiset(r);
        if y != x {
          assert y in rs[1..];
        }
      }
    }
  }

  /** The stable sort by distance, as the sort by distance and position. */
  function SortRanked(rs: seq<Ranked>): (r: seq<Ranked>)
    ensures multiset(r) == multiset(rs)
  {
    if |rs| == 0 then []
    else
      assert rs == rs[..|rs| - 1] + [rs[|rs| - 1]];
      Insert(rs[|rs| - 1], SortRanked(rs[..|rs| - 1]))
  }

  /** Sorting candidates with distinct positions yields them sorted. */
  lemma {:induction false} SortRankedSorted(rs: seq<Ranked>)
    requires forall i, j :: 0 <= i < j < |rs| ==> rs[i].index != rs[j].index
    ensures Sorted(SortRanked(rs))
    decreases |rs|
  {
    if |rs| > 0 {
      var init := rs[..|rs| - 1];
      var x := rs[|rs| - 1];
      SortRankedSorted(init);
      forall r | r in SortRanked(init)
        ensures r.index != x.index
      {
        assert r in multiset(SortRanked(init));
        var k :| 0 <= k < |init| && init[k] == r;
        assert rs[k] == r;
      }
      InsertSorted(x, SortRanked(init));
    }
  }

  function Ranking(word: string, list: seq<string>): seq<Ranked>
  {
    SortRanked(Candidates(word, list))
  }

  /** `findSimilarWords(word, list)`: the names of the first five ranked candidates. */
  function FindSimilarWords(word: string, list: seq<string>): (r: seq<string>)
  {
    var ranking := Ranking(word, list);
    var n := if |ranking| < 5 then |ranking| else 5;
    seq(n, k requires 0 <= k < n => ranking[k].name)
  }

  /** The ranking is the candidates, sorted by distance and then list position. */
  lemma RankingFacts(word: string, list: seq<string>)
    ensures multiset(Ranking(word, list)) == multiset(Candidates(word, list))
    ensures |Ranking(word, list)| == |Candidates(word, list)|
    ensures Sorted(Ranking(word, list))
    ensures forall k :: 0 <= k < |Ranking(word, list)| ==> Ranking(word, list)[k] in Candidates(word, list)
  {
    var cs := Candidates(word, list);
    var ranking := Ranking(word, list);
    CandidatesExactly(word, list);
    SortRankedSorted(cs);
    assert |multiset(ranking)| == |multiset(cs)|;
    forall k | 0 <= k < |ranking|
      ensures ranking[k] in cs
    {
      assert ranking[k] in multiset(ranking);
    }
  }

  /**
   * At most five suggestions, fewer only when fewer entries contain the word,
   * and each an entry of the list that contains the word.
   */
  lemma SuggestionsFromList(word: string, list: seq<string>)
    ensures var r := FindSimilarWords(word, list);
      && |r| <= 5
      && |r| == (if |Candidates(word, list)| < 5 then |Candidates(word, list)| else 5)
      && (forall k :: 0 <= k < |r| ==> r[k] in list && Includes(r[k], word))
  {
    RankingFacts(word, list);
    CandidatesExactly(word, list);
    var r := FindSimilarWords(word, list);
    var ranking := Ranking(word, list);
    forall k | 0 <= k < |r|
      ensures r[k] in list && Includes(r[k], word)
    {
      assert ranking[k] in Candidates(word, list);
    }
  }

  /**
   * The suggestions come in non-decreasing distance to the word; on equal
   * distance, in list order (the sort is stable).
   */
  lemma SuggestionsOrdered(word: string, list: seq<string>)
    ensures var r := FindSimilarWords(word, list);
      var ranking := Ranking(word, list);
      forall i, j :: 0 <= i < j < |r| ==>
        && r[i] == ranking[i].name && r[j] == ranking[j].name
        && (Dist(word, r[i]) < Dist(word, r[j])
            || (Dist(word, r[i]) == Dist(word, r[j]) && ranking[i].index < ranking[j].index))
  {
    RankingFacts(word, list);
    CandidatesExactly(word, list);
  }

  /** No entry containing the word that is strictly closer to it than some suggestion is left out. */
  lemma SuggestionsAreClosest(word: string, list: seq<string>)
    ensures var r := FindSimilarWords(word, list);
      forall k, i ::
        (0 <= k < |list| && Includes(list[k], word) && 0 <= i < |r| && Dist(word, list[k]) < Dist(word, r[i]))
        ==> list[k] in r
  {
    RankingFacts(word, list);
    CandidatesExactly(word, list);
    var r := FindSimilarWords(word, list);
    var ranking := Ranking(word, list);
    forall k, i | 0 <= k < |list| && Includes(list[k], word) && 0 <= i < |r|
      && Dist(word, list[k]) < Dist(word, r[i])
      ensures list[k] in r
    {
      var x := Ranked(list[k], Dist(word, list[k]), k);
      assert x in multiset(ranking);
      var p :| 0 <= p < |ranking| && ranking[p] == x;
      assert ranking[i] in Candidates(word, list);
      if p >= |r| {
        assert false;
      }
      assert r[p] == list[k];
    }
  }

  // ---------------------------------------------------------------- getCommandDescription

  /** The `desc` of a command: a table by language, a plain string, `null`, or anything else. */
  datatype Desc = ByLanguage(texts: map<string, string>) | Plain(text: string) | Null | OtherValue

  /** The result of the lookup: a string, `undefined`, or a thrown TypeError (reading a key of `null`). */
  datatype Description = Text(text: string) | Undefined | TypeError

  /** The placeholder `~~~`, shown for a command without description and used as the fallback language key. */
  const Placeholder: string := "~~~"

  /**
   * `getCommandDescription(command)`, `command` being `None` when it is
   * missing: the entry for the current language unless it is missing or
   * empty, then the `~~~` entry; a string description as is; `~~~` for
   * anything else. `typeof null` is `'object'`, so a `null` description throws.
   */
  function GetCommandDescription(command: Option<Desc>, lang: string): (r: Description)
    ensures command.None? ==> r == Text(Placeholder)
    // a language table: the current language's text wins whenever it is non-empty ...
    ensures command.Some? && command.value.ByLanguage? && lang in command.value.texts && command.value.texts[lang] != ""
            ==> r == Text(command.value.texts[lang])
    // ... and only otherwise is the `~~~` text read, `undefined` when the table has none
    ensures command.Some? && command.value.ByLanguage? && !(lang in command.value.texts && command.value.texts[lang] != "")
            ==> (r.Text? <==> Placeholder in command.value.texts)
                && (r.Text? ==> r.text == command.value.texts[Placeholder])
                && (!r.Text? ==> r == Undefined)
    ensures command.Some? && command.value.Plain? ==> r == Text(command.value.text)
    ensures command == Some(OtherValue) ==> r == Text(Placeholder)
    ensures r == TypeError <==> command == Some(Null)
    ensures r == Undefined ==> command.Some? && command.value.ByLanguage? && Placeholder !in command.value.texts
    // an empty description comes only from an empty string written in the command itself
    ensures r == Text("") ==>
      command.Some? && (command.value == Plain("")
                        || (command.value.ByLanguage? && Placeholder in command.value.texts
                            && command.value.texts[Placeholder] == ""))
  {
    match command
    case None => Text(Placeholder)
    case Some(desc) =>
      match desc
      case ByLanguage(texts) =>
        if lang in texts && texts[lang] != "" then Text(texts[lang])
        else if Placeholder in texts then Text(texts[Placeholder])
        else Undefined
      case Plain(text) => Text(text)
      case Null => TypeError
      case OtherValue => Text(Placeholder)
  }
}
