/**
 * The chat form's submit handler (`handleChatSubmit` in components/chat.tsx):
 * an input whose lower-cased form starts with "find " also starts an event
 * search, with a query and a town cut out of the input; every input is then
 * sent on to the chat assistant.
 */
module ChatComponent {
  import opened Wrappers
  import opened JsString

  /** The lower-cased prefix that turns an input into a search. */
  const FindPrefix: string := "find "

  /** The separator between the query and the town. */
  const InSeparator: string := " in "

  /** The arguments handed to the search request. */
  datatype SearchRequest = SearchRequest(query: string, town: string)

  /** The "find ... in ..." parse: `None` when the input is not a search. The
      prefix test runs on the lower-cased input; the split and the removal of
      "find " run on the input as typed. */
  function ParseFind(input: string): Option<SearchRequest>
  {
    if StartsWith(ToLowerCase(input), FindPrefix) then
      var parts := Split(input, InSeparator);
      var query := Trim(Replace(parts[0], FindPrefix, ""));
      var town := if |parts| > 1 && parts[1] != "" then Trim(parts[1]) else "";
      Some(SearchRequest(query, town))
    else
      None
  }

  /** What a submit sets off, in order. */
  datatype Action =
    | StartSearch(request: SearchRequest)
    | SendToAssistant(message: string)

  /** handleChatSubmit: a search when the input asks for one, then the message
      to the assistant whatever the input. */
  function HandleChatSubmit(input: string): (actions: seq<Action>)
    ensures |actions| >= 1 && actions[|actions| - 1] == SendToAssistant(input)
    ensures |actions| == 2 <==> ParseFind(input).Some?
    ensures |actions| == 2 ==> actions[0] == StartSearch(ParseFind(input).value)
    ensures |actions| <= 2
  {
    match ParseFind(input)
    case Some(request) => [StartSearch(request), SendToAssistant(input)]
    case None => [SendToAssistant(input)]
  }

  /** The search is triggered exactly when the first five characters spell
      "find " in any mix of upper and lower case. */
  lemma TriggerIsCaseInsensitive(input: string)
    ensures ParseFind(input).Some? <==>
      && |input| >= 5
      && (input[0] == 'f' || input[0] == 'F')
      && (input[1] == 'i' || input[1] == 'I')
      && (input[2] == 'n' || input[2] == 'N')
      && (input[3] == 'd' || input[3] == 'D')
      && input[4] == ' '
  {
    var lower := ToLowerCase(input);
    if |input| >= 5 {
      assert StartsWith(lower, FindPrefix) <==>
        lower[0] == 'f' && lower[1] == 'i' && lower[2] == 'n' && lower[3] == 'd' && lower[4] == ' ';
    }
  }

  /** An input typed with a lower-case "find " triggers a search. */
  lemma LowerCaseTrigger(input: string)
    requires StartsWith(input, FindPrefix)
    ensures StartsWith(ToLowerCase(input), FindPrefix)
  {
    assert input[..5] == FindPrefix;
    var lower := ToLowerCase(input);
    assert lower[0] == 'f' && lower[1] == 'i' && lower[2] == 'n' && lower[3] == 'd' && lower[4] == ' ';
  }

  /** A search input without " in " has no town, and its query is the whole
      input with "find " removed once and trimmed. */
  lemma ParseFindOneSegment(input: string)
    requires StartsWith(ToLowerCase(input), FindPrefix)
    requires IndexOf(input, InSeparator).None?
    ensures ParseFind(input) == Some(SearchRequest(Trim(Replace(input, FindPrefix, "")), ""))
  {
    assert Split(input, InSeparator) == [input];
  }

  /** The text a user types to search for `query` in `town`. */
  function FindCommand(query: string, town: string): string
  {
    FindPrefix + query + InSeparator + town
  }

  /** The separator placed after `query` is the first one in
      "find <query> in ": `query` neither holds " in " nor forms one with the
      text around it. */
  predicate SeparatorEndsQuery(query: string)
  {
    IndexOf(FindPrefix + query + InSeparator, InSeparator) == Some(|FindPrefix| + |query|)
  }

  /** A town name in which no " in " occurs. */
  predicate SeparatorFree(town: string)
  {
    IndexOf(town, InSeparator).None?
  }

  /** The split of a find command: the text up to the query's end, then the
      town. */
  lemma FindCommandSplit(query: string, town: string)
    requires SeparatorEndsQuery(query) && SeparatorFree(town)
    ensures Split(FindCommand(query, town), InSeparator) == [FindPrefix + query, town]
  {
    var head := FindPrefix + query + InSeparator;
    var input := head + town;
    var m := |FindPrefix| + |query|;
    assert input == FindCommand(query, town);
    IndexFromAppend(head, town, InSeparator, 0);
    IndexFromShifted(head, town, InSeparator, 0);
    assert input[..m] == FindPrefix + query;
    assert input[m + |InSeparator|..] == town;
    assert SplitFrom(input, InSeparator, m + |InSeparator|) == [town];
  }

  /** A find command starts with "find ", so it triggers a search. */
  lemma FindCommandTriggers(query: string, town: string)
    ensures StartsWith(ToLowerCase(FindCommand(query, town)), FindPrefix)
  {
    var input := FindCommand(query, town);
    assert input[..5] == FindPrefix;
    TriggerIsCaseInsensitive(input);
  }

  /** The parse inverts FindCommand: a query whose separator is the first,
      and a town without one, both already trimmed, come back as typed. */
  lemma ParseFindCommand(query: string, town: string)
    requires SeparatorEndsQuery(query) && SeparatorFree(town)
    requires Trimmed(query) && Trimmed(town)
    ensures ParseFind(FindCommand(query, town)) == Some(SearchRequest(query, town))
  {
    FindCommandTriggers(query, town);
    FindCommandSplit(query, town);
    ReplaceLeading(FindPrefix + query, FindPrefix);
    assert (FindPrefix + query)[|FindPrefix|..] == query;
  }

  /** A one-word query other than "in" ends at the separator placed after it. */
  lemma OneWordEndsQuery(query: string)
    requires ' ' !in query && query != "in"
    ensures SeparatorEndsQuery(query)
  {
    var w := FindPrefix + query + InSeparator;
    var m := |FindPrefix| + |query|;
    assert w[m..] == InSeparator;
    forall j | 0 <= j < m
      ensures !OccursAt(w, InSeparator, j)
    {
      if OccursAt(w, InSeparator, j) {
        OccursAtChar(w, InSeparator, j, 0);
        OccursAtChar(w, InSeparator, j, 1);
        OccursAtChar(w, InSeparator, j, 2);
        OccursAtChar(w, InSeparator, j, 3);
      }
    }
    IndexFromIs(w, InSeparator, 0, m);
  }

  /** A one-word query and a one-word town come back out of "find q in t". */
  lemma OneWordSearch(query: string, town: string)
    requires ' ' !in query && query != "in" && ' ' !in town
    requires Trimmed(query) && Trimmed(town)
    ensures ParseFind(FindCommand(query, town)) == Some(SearchRequest(query, town))
  {
    OneWordEndsQuery(query);
    AbsentCharNoOccurrence(town, InSeparator, 0);
    ParseFindCommand(query, town);
  }

  /** "find yoga in Cabarete" asks for yoga in Cabarete. */
  lemma FindYogaInCabarete()
    ensures ParseFind(FindCommand("yoga", "Cabarete")) == Some(SearchRequest("yoga", "Cabarete"))
  {
    assert Trimmed("yoga") && Trimmed("Cabarete");
    OneWordSearch("yoga", "Cabarete");
  }

  /** In "find in <town>" the first separator overlaps the prefix. */
  lemma FindInSplit(town: string)
    ensures Split("find" + InSeparator + town, InSeparator)[0] == "find"
  {
    var input := "find" + InSeparator + town;
    assert OccursAt(input, InSeparator, 4);
    forall j | 0 <= j < 4
      ensures !OccursAt(input, InSeparator, j)
    {
      if OccursAt(input, InSeparator, j) {
        OccursAtChar(input, InSeparator, j, 0);
      }
    }
    IndexFromIs(input, InSeparator, 0, 4);
    assert input[..4] == "find";
  }

  /** "find in <town>": the segment before the first " in " is "find", which
      holds no "find " to remove, so the query is the word "find" itself. */
  lemma FindInKeepsWordFind(town: string)
    ensures ParseFind("find" + InSeparator + town).Some?
    ensures ParseFind("find" + InSeparator + town).value.query == "find"
  {
    var input := "find" + InSeparator + town;
    TriggerIsCaseInsensitive(input);
    FindInSplit(town);
    AbsentCharNoOccurrence("find", FindPrefix, 4);
    ReplaceAbsent("find", FindPrefix);
    assert Trimmed("find");
  }

  /** In a string whose only space is at index 4, neither " in " nor "find "
      occurs unless the string starts with "find ". */
  lemma SingleSpaceOccurrences(input: string)
    requires |input| >= 5 && input[4] == ' ' && input[..5] != FindPrefix
    requires forall j :: 0 <= j < |input| && input[j] == ' ' ==> j == 4
    ensures IndexOf(input, InSeparator).None? && IndexOf(input, FindPrefix).None?
  {
    forall j: nat | OccursAt(input, InSeparator, j)
      ensures false
    {
      OccursAtChar(input, InSeparator, j, 0);
      OccursAtChar(input, InSeparator, j, 3);
    }
    forall j: nat | OccursAt(input, FindPrefix, j)
      ensures false
    {
      OccursAtChar(input, FindPrefix, j, 4);
    }
  }

  /** A capitalized trigger followed by one word: the only space is the
      trigger's own. */
  lemma CapitalizedTriggerOneSpace(typed: string, rest: string)
    requires |typed| == 5 && ToLowerCase(typed) == FindPrefix && typed != FindPrefix
    requires ' ' !in rest
    ensures var input := typed + rest;
      && input[4] == ' ' && input[..5] != FindPrefix
      && forall j :: 0 <= j < |input| && input[j] == ' ' ==> j == 4
  {
    var input := typed + rest;
    assert input[..5] == typed;
    forall j | 0 <= j < |input| && input[j] == ' '
      ensures j == 4
    {
      if j < 5 {
        assert ToLowerCase(typed)[j] == ToLowerChar(typed[j]);
      }
    }
    assert ToLowerCase(typed)[4] == ToLowerChar(typed[4]);
  }

  /** The removal of "find " is case-sensitive: a trigger typed with any
      capital stays in the query. `typed` is the first five characters as the
      user typed them. */
  lemma CapitalizedTriggerKept(typed: string, rest: string)
    requires |typed| == 5 && ToLowerCase(typed) == FindPrefix && typed != FindPrefix
    requires ' ' !in rest && rest != [] && !IsJsWhitespace(rest[|rest| - 1])
    ensures ParseFind(typed + rest) == Some(SearchRequest(typed + rest, ""))
  {
    var input := typed + rest;
    assert StartsWith(ToLowerCase(input), FindPrefix) by {
      assert ToLowerCase(input)[..5] == ToLowerCase(typed);
    }
    CapitalizedTriggerOneSpace(typed, rest);
    SingleSpaceOccurrences(input);
    ReplaceAbsent(input, FindPrefix);
    assert Trimmed(input);
    ParseFindOneSegment(input);
  }

  /** With no lower-case "i" after "find ", no " in " occurs. */
  lemma NoLowerINoSeparator(rest: string)
    requires 'i' !in rest
    ensures IndexOf(FindPrefix + rest, InSeparator).None?
  {
    var input := FindPrefix + rest;
    forall j: nat | OccursAt(input, InSeparator, j)
      ensures false
    {
      OccursAtChar(input, InSeparator, j, 0);
      OccursAtChar(input, InSeparator, j, 1);
    }
  }

  /** The separator is matched on the input as typed: with no lower-case "i"
      after "find ", there is no " in " and the whole rest is the query. */
  lemma SeparatorIsCaseSensitive(rest: string)
    requires 'i' !in rest
    ensures ParseFind(FindPrefix + rest) == Some(SearchRequest(Trim(rest), ""))
  {
    var input := FindPrefix + rest;
    assert StartsWith(input, FindPrefix);
    LowerCaseTrigger(input);
    NoLowerINoSeparator(rest);
    ReplaceLeading(input, FindPrefix);
    assert input[|FindPrefix|..] == rest;
    ParseFindOneSegment(input);
  }

  /** "find yoga IN Cabarete" searches for "yoga IN Cabarete" in no town. */
  lemma UpperCaseInIsNotSeparator()
    ensures ParseFind(FindPrefix + "yoga IN Cabarete") == Some(SearchRequest("yoga IN Cabarete", ""))
  {
    SeparatorIsCaseSensitive("yoga IN Cabarete");
    assert Trimmed("yoga IN Cabarete");
  }

  /** The query, in the three steps of the source: the text up to the first
      " in " (or the whole input), with its first "find " removed, trimmed. */
  lemma QueryFromFirstSegment(input: string)
    requires ParseFind(input).Some?
    ensures ParseFind(input).value.query ==
      Trim(Replace(input[..SegmentEnd(input, InSeparator, 0)], FindPrefix, ""))
  {
    FirstSegmentIs(input, InSeparator, 0);
  }

  /** The town is the second piece of the split, trimmed, or empty when
      there is none. */
  lemma TownIsSecondPiece(input: string)
    requires ParseFind(input).Some?
    ensures ParseFind(input).value.town ==
      if |Split(input, InSeparator)| > 1 then Trim(Split(input, InSeparator)[1]) else ""
  {
    var parts := Split(input, InSeparator);
    if |parts| > 1 && parts[1] == "" {
      assert Trim(parts[1]) == "";
    }
  }

  /** The town is the trimmed text between the first " in " and the next one
      (or the end of the input), and empty when there is no " in ". */
  lemma TownBetweenSeparators(input: string)
    requires ParseFind(input).Some?
    ensures IndexOf(input, InSeparator).None? ==> ParseFind(input).value.town == ""
    ensures IndexOf(input, InSeparator).Some? ==>
      var from := IndexOf(input, InSeparator).value + |InSeparator|;
      from <= |input| &&
      ParseFind(input).value.town == Trim(input[from..SegmentEnd(input, InSeparator, from)])
  {
    TownIsSecondPiece(input);
    FirstSegmentIs(input, InSeparator, 0);
    if IndexOf(input, InSeparator).Some? {
      var k := SecondSegment(input, InSeparator, 0);
      FirstSegmentIs(input, InSeparator, k + |InSeparator|);
    }
  }

  /** Without any " in " the town is empty. */
  lemma NoSeparatorNoTown(input: string)
    requires IndexOf(input, InSeparator).None?
    ensures ParseFind(input).Some? ==> ParseFind(input).value.town == ""
  {
  }

  /** Text appended to an input with two separators leaves its first two
      segments alone. */
  lemma AppendAfterSecondSeparator(input: string, more: string)
    requires |Split(input, InSeparator)| >= 3
    ensures |Split(input + more, InSeparator)| >= 3
    ensures Split(input + more, InSeparator)[0] == Split(input, InSeparator)[0]
    ensures Split(input + more, InSeparator)[1] == Split(input, InSeparator)[1]
    ensures |input| >= 2 * |InSeparator|
  {
    FirstSegmentAfterAppend(input, more, InSeparator, 0);
    var k := SecondSegment(input, InSeparator, 0);
    var k' := SecondSegment(input + more, InSeparator, 0);
    FirstSegmentAfterAppend(input, more, InSeparator, k + |InSeparator|);
  }

  /** Whatever follows a second " in " is dropped: appending text to an input
      that already has two separators does not change the parse. */
  lemma TextAfterSecondSeparatorIgnored(input: string, more: string)
    requires |Split(input, InSeparator)| >= 3
    ensures ParseFind(input + more) == ParseFind(input)
  {
    AppendAfterSecondSeparator(input, more);
    assert (input + more)[..5] == input[..5];
    assert ToLowerCase(input + more)[..5] == ToLowerCase(input)[..5];
  }
}
