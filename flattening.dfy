/** Flattening the sections of a quiz into one ordered question list, each
    entry tagged with its section's name and difficulty. */
module Flattening {
  import opened QuizData

  /** The entry one question of section `s` becomes. */
  function Tag(s: Section, q: Question): FlatQuestion {
    FlatQuestion(q, s.name, s.difficulty)
  }

  /** The entries section `s` contributes, in its own question order. */
  function Tagged(s: Section): seq<FlatQuestion> {
    seq(|s.questions|, j requires 0 <= j < |s.questions| => Tag(s, s.questions[j]))
  }

  /** The number of questions over all sections. */
  function QuestionCount(sections: seq<Section>): nat {
    if sections == [] then 0
    else QuestionCount(sections[..|sections| - 1]) + |sections[|sections| - 1].questions|
  }

  /** The flattened list: the sections' entries one section after another.
      It holds exactly as many entries as the sections hold questions. */
  function Flatten(sections: seq<Section>): (questions: seq<FlatQuestion>)
    ensures |questions| == QuestionCount(sections)
  {
    if sections == [] then []
    else Flatten(sections[..|sections| - 1]) + Tagged(sections[|sections| - 1])
  }

  /** The nested loops of the load effect: for each section in order, for
      each of its questions in order, push the tagged question. */
  method FlattenQuestions(sections: seq<Section>) returns (questions: seq<FlatQuestion>)
    ensures questions == Flatten(sections)
  {
    questions := [];
    var i := 0;
    while i < |sections|
      invariant 0 <= i <= |sections|
      invariant questions == Flatten(sections[..i])
    {
      var section := sections[i];
      var j := 0;
      while j < |section.questions|
        invariant 0 <= j <= |section.questions|
        invariant questions == Flatten(sections[..i]) + Tagged(section)[..j]
      {
        questions := questions + [FlatQuestion(section.questions[j], section.name, section.difficulty)];
        j := j + 1;
      }
      assert Tagged(section)[..j] == Tagged(section);
      assert sections[..i + 1][..i] == sections[..i];
      i := i + 1;
    }
    assert sections[..i] == sections;
  }

  /** Question `j` of section `i` sits at position "questions of the earlier
      sections, plus j", carrying its own section's name and difficulty. */
  lemma {:induction false} FlattenAt(sections: seq<Section>, i: nat, j: nat)
    requires i < |sections| && j < |sections[i].questions|
    ensures QuestionCount(sections[..i]) + j < |Flatten(sections)|
    ensures Flatten(sections)[QuestionCount(sections[..i]) + j]
         == FlatQuestion(sections[i].questions[j], sections[i].name, sections[i].difficulty)
  {
    var n := |sections| - 1;
    var init := sections[..n];
    if i == n {
      assert init == sections[..i];
    } else {
      assert init[..i] == sections[..i];
      FlattenAt(init, i, j);
    }
  }

  /** Every entry of the list comes from some question of some section. */
  lemma {:induction false} FlattenOrigin(sections: seq<Section>, k: nat) returns (i: nat, j: nat)
    requires k < |Flatten(sections)|
    ensures i < |sections| && j < |sections[i].questions|
    ensures k == QuestionCount(sections[..i]) + j
    ensures Flatten(sections)[k] == Tag(sections[i], sections[i].questions[j])
  {
    var n := |sections| - 1;
    var init := sections[..n];
    if k < |Flatten(init)| {
      i, j := FlattenOrigin(init, k);
      assert init[..i] == sections[..i];
    } else {
      i, j := n, k - |Flatten(init)|;
      assert init == sections[..i];
    }
    FlattenAt(sections, i, j);
  }

  /** The questions before section `b` include those before section `a <= b`
      and all of the sections in between. */
  lemma {:induction false} PrefixCountGrows(sections: seq<Section>, a: nat, b: nat)
    requires a < b <= |sections|
    ensures QuestionCount(sections[..a]) + |sections[a].questions| <= QuestionCount(sections[..b])
  {
    assert sections[..b][..b - 1] == sections[..b - 1];
    if a < b - 1 {
      PrefixCountGrows(sections, a, b - 1);
    } else {
      assert sections[..b - 1] == sections[..a];
    }
  }

  /** Order is kept: an earlier section's question, or an earlier question
      of the same section, comes earlier in the list. */
  lemma FlattenOrder(sections: seq<Section>, i: nat, j: nat, i': nat, j': nat)
    requires i < |sections| && j < |sections[i].questions|
    requires i' < |sections| && j' < |sections[i'].questions|
    requires i < i' || (i == i' && j < j')
    ensures QuestionCount(sections[..i]) + j < QuestionCount(sections[..i']) + j'
  {
    if i < i' {
      PrefixCountGrows(sections, i, i');
    }
  }
}
