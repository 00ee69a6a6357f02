/** The tree's two-state machine: the explicit toggle (App.tsx, lines
    29-33) and the keyword rule applied after every reply (App.tsx, lines
    60-64). */
module Morph {
  import opened Wrappers
  import opened Types
  import opened Strings

  /** `toggleMorph`: the assembled tree scatters, anything else assembles. */
  function Flip(m: MorphStatus): (r: MorphStatus)
    ensures r != m
  {
    if m == TreeShape then Scattered else TreeShape
  }

  /** Toggling twice restores the status. */
  lemma FlipTwice(m: MorphStatus)
    ensures Flip(Flip(m)) == m
  {
  }

  /** The lower-cased `text` contains `word` somewhere, as a plain
      substring (so "information" mentions "form"). */
  ghost predicate Mentions(text: string, word: string) {
    exists i :: OccursAt(ToLower(text), word, i)
  }

  /** The words that force the scattered arrangement. */
  ghost predicate AsksToScatter(text: string) {
    Mentions(text, "scatter") || Mentions(text, "disperse")
  }

  /** The words that force the assembled tree. */
  ghost predicate AsksForShape(text: string) {
    Mentions(text, "shape") || Mentions(text, "form") || Mentions(text, "tree")
  }

  /** The keyword rule as the source writes it: lower-case the user text,
      test the scatter words first, then the shape words; no match means
      no forced status. A scatter word thus wins over any shape word, a
      shape word alone assembles, and no word forces nothing. */
  function Classify(userMsg: string): (r: Option<MorphStatus>)
    ensures r == Some(Scattered) <==> AsksToScatter(userMsg)
    ensures r == Some(TreeShape) <==> !AsksToScatter(userMsg) && AsksForShape(userMsg)
    ensures r == None <==> !AsksToScatter(userMsg) && !AsksForShape(userMsg)
  {
    var lower := ToLower(userMsg);
    if Includes(lower, "scatter") || Includes(lower, "disperse") then Some(Scattered)
    else if Includes(lower, "shape") || Includes(lower, "form") || Includes(lower, "tree") then Some(TreeShape)
    else None
  }

  /** The status after a completed exchange, from the status before it and
      the trimmed user text: scatter words force `Scattered` whatever the
      prior status, even beside a shape word; otherwise shape words force
      `TreeShape`; otherwise the status is kept. */
  function Next(current: MorphStatus, userMsg: string): (r: MorphStatus)
    ensures AsksToScatter(userMsg) ==> r == Scattered
    ensures !AsksToScatter(userMsg) && AsksForShape(userMsg) ==> r == TreeShape
    ensures !AsksToScatter(userMsg) && !AsksForShape(userMsg) ==> r == current
  {
    match Classify(userMsg)
    case Some(forced) => forced
    case None => current
  }

  /** The rule ignores letter case: upper-case and lower-case spellings
      of the same text lead to the same status. */
  lemma NextIgnoresCase(current: MorphStatus, userMsg: string)
    ensures Next(current, ToLower(userMsg)) == Next(current, userMsg)
  {
    ToLowerIdempotent(userMsg);
  }

  /** Neither scatter word can occur in text that lacks one letter of
      each, in both cases. */
  lemma NoScatterWord(msg: string, x: char, y: char)
    requires x in "scatter" && y in "disperse"
    requires LacksLetter(msg, x) && LacksLetter(msg, y)
    ensures !AsksToScatter(msg)
  {
    AbsentAfterLowering(msg, x);
    AbsentAfterLowering(msg, y);
    NoOccurrenceWithoutChar(ToLower(msg), "scatter", x);
    NoOccurrenceWithoutChar(ToLower(msg), "disperse", y);
  }

  /** No shape word can occur in text that lacks one letter of each, in
      both cases. */
  lemma NoShapeWord(msg: string, x: char, y: char, z: char)
    requires x in "shape" && y in "form" && z in "tree"
    requires LacksLetter(msg, x) && LacksLetter(msg, y) && LacksLetter(msg, z)
    ensures !AsksForShape(msg)
  {
    AbsentAfterLowering(msg, x);
    AbsentAfterLowering(msg, y);
    AbsentAfterLowering(msg, z);
    NoOccurrenceWithoutChar(ToLower(msg), "shape", x);
    NoOccurrenceWithoutChar(ToLower(msg), "form", y);
    NoOccurrenceWithoutChar(ToLower(msg), "tree", z);
  }

  /** Worked case: a shape word reassembles a scattered tree. */
  lemma ExampleFormTheTree()
    ensures Next(Scattered, "Please form the tree now") == TreeShape
  {
    var msg := "Please form the tree now";
    NoScatterWord(msg, 'c', 'd');
    assert OccursAt(ToLower(msg), "form", 7) by {
      assert ToLower(msg)[7..11] == msg[7..11] == "form";
    }
  }

  /** Worked case: a scatter word scatters the assembled tree. */
  lemma ExampleScatterTheLights()
    ensures Next(TreeShape, "scatter the lights") == Scattered
  {
    var msg := "scatter the lights";
    assert OccursAt(ToLower(msg), "scatter", 0) by {
      assert ToLower(msg)[..7] == msg[..7] == "scatter";
    }
  }

  /** Worked case: the tie-break. A capitalised scatter word wins over the
      shape word "tree" in the same text. */
  lemma ExampleScatterBeatsTree()
    ensures Next(TreeShape, "Scatter this tree") == Scattered
  {
    var msg := "Scatter this tree";
    assert OccursAt(ToLower(msg), "scatter", 0) by {
      assert ToLower(msg)[0] as int == 'S' as int + 32 == 's' as int;
      assert ToLower(msg)[1..7] == msg[1..7] == "catter";
      assert ToLower(msg)[..7] == [ToLower(msg)[0]] + ToLower(msg)[1..7];
    }
  }

  /** Worked cases: matching is by plain substring, so "information"
      contains "form" and "street" contains "tree". */
  lemma ExampleSubstrings()
    ensures Next(Scattered, "information") == TreeShape
    ensures Next(Scattered, "street") == TreeShape
  {
    var info, street := "information", "street";
    NoScatterWord(info, 'c', 'd');
    NoScatterWord(street, 'c', 'd');
    assert OccursAt(ToLower(info), "form", 2) by {
      assert ToLower(info)[2..6] == info[2..6] == "form";
    }
    assert OccursAt(ToLower(street), "tree", 1) by {
      assert ToLower(street)[1..5] == street[1..5] == "tree";
    }
  }

  /** Worked case: text with no keyword leaves the status alone. */
  lemma ExampleNoKeyword(current: MorphStatus)
    ensures Next(current, "Happy holidays!") == current
  {
    var msg := "Happy holidays!";
    NoScatterWord(msg, 'c', 'e');
    NoShapeWord(msg, 'e', 'f', 't');
  }

  /** Worked case: "Merry Christmas!" holds every letter of "scatter" and
      of "tree", yet neither word: "sc" and "tr" never stand side by side
      in it. It forces nothing, so any status is kept. */
  lemma ExampleMerryChristmas(current: MorphStatus)
    ensures Next(current, "Merry Christmas!") == current
  {
    MerryChristmasNoScatter();
    MerryChristmasNoShape();
  }

  /** One half of `ExampleMerryChristmas`: "sc" never stands side by
      side in the text, and it has no 'd', so no scatter word occurs. */
  lemma MerryChristmasNoScatter()
    ensures !AsksToScatter("Merry Christmas!")
  {
    var msg := "Merry Christmas!";
    assert LacksPair(msg, 's', 'c');
    NoOccurrenceWithoutPair(msg, "scatter", 0);
    AbsentAfterLowering(msg, 'd');
    NoOccurrenceWithoutChar(ToLower(msg), "disperse", 'd');
  }

  /** The other half of `ExampleMerryChristmas`: the text has no 'p' and
      no 'f', and "tr" never stands side by side in it, so no shape word
      occurs. */
  lemma MerryChristmasNoShape()
    ensures !AsksForShape("Merry Christmas!")
  {
    var msg := "Merry Christmas!";
    AbsentAfterLowering(msg, 'p');
    NoOccurrenceWithoutChar(ToLower(msg), "shape", 'p');
    AbsentAfterLowering(msg, 'f');
    NoOccurrenceWithoutChar(ToLower(msg), "form", 'f');
    MerryChristmasNoTree();
  }

  /** "Merry Christmas!" holds every letter of "tree" but never "tr". */
  lemma MerryChristmasNoTree()
    ensures !Mentions("Merry Christmas!", "tree")
  {
    var msg := "Merry Christmas!";
    assert LacksPair(msg, 't', 'r');
    NoOccurrenceWithoutPair(msg, "tree", 0);
  }
}
