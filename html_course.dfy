/** The stand-alone "Learn HTML" course page: answer checking, completion
    flags kept in the browser's key-value store, the progress count over
    those flags, and the one-question quiz. */
module HtmlCourse {
  import opened Results
  import opened Text
  import Ledger

  predicate IsAngle(c: char)
  {
    c == '<' || c == '>'
  }

  /** `replace(/<|>/g, '')`. */
  function StripAngles(s: string): (r: string)
    ensures |r| <= |s|
    ensures forall i :: 0 <= i < |r| ==> !IsAngle(r[i])
    ensures forall c :: c in r <==> c in s && !IsAngle(c)
    ensures (forall i :: 0 <= i < |s| ==> !IsAngle(s[i])) ==> r == s
  {
    if s == [] then []
    else (if IsAngle(s[0]) then [] else [s[0]]) + StripAngles(s[1..])
  }

  lemma {:induction false} StripAnglesAppend(a: string, b: string)
    ensures StripAngles(a + b) == StripAngles(a) + StripAngles(b)
  {
    if a == [] {
      assert a + b == b;
    } else {
      assert (a + b)[0] == a[0];
      assert (a + b)[1..] == a[1..] + b;
      StripAnglesAppend(a[1..], b);
    }
  }

  /** The typed answer as compared: lower-cased, trimmed, then stripped of
      angle brackets, in that order. */
  function Normalize(s: string): (r: string)
    ensures |r| <= |s|
    ensures forall i :: 0 <= i < |r| ==> !IsAngle(r[i])
    ensures forall i :: 0 <= i < |r| ==> !('A' <= r[i] <= 'Z')
  {
    var r := StripAngles(Trim(Lower(s)));
    NormalizeHasNoCapitals(s, r);
    r
  }

  lemma NormalizeHasNoCapitals(s: string, r: string)
    requires r == StripAngles(Trim(Lower(s)))
    ensures |r| <= |s|
    ensures forall i :: 0 <= i < |r| ==> !IsAngle(r[i])
    ensures forall i :: 0 <= i < |r| ==> !('A' <= r[i] <= 'Z')
  {
    var l := Lower(s);
    var t := Trim(l);
    forall i | 0 <= i < |r|
      ensures !('A' <= r[i] <= 'Z')
    {
      var c := r[i];
      assert c in r;
      assert c in t;
      var j :| 0 <= j < |t| && t[j] == c;
      assert c in l;
      var m :| 0 <= m < |l| && l[m] == c;
      assert l[m] == LowerChar(s[m]);
    }
  }

  datatype Feedback = NoFeedback | Correct | TryAgain

  /** `checkAnswer`: nothing happens when either element is missing;
      otherwise the normalised input is compared with the lower-cased key. */
  function CheckAnswer(input: Option<string>, feedbackPresent: bool, correctAnswer: string): (f: Feedback)
    ensures f == NoFeedback <==> input.None? || !feedbackPresent
    ensures f == Correct <==> input.Some? && feedbackPresent && Normalize(input.value) == Lower(correctAnswer)
  {
    if input.None? || !feedbackPresent then NoFeedback
    else if Normalize(input.value) == Lower(correctAnswer) then Correct
    else TryAgain
  }

  /** A key with an angle bracket can never be matched: the brackets are
      stripped from the input but kept in the key. */
  lemma AngleKeyNeverAccepted(input: string, correctAnswer: string)
    requires exists i :: 0 <= i < |correctAnswer| && IsAngle(correctAnswer[i])
    ensures CheckAnswer(Some(input), true, correctAnswer) == TryAgain
  {
    var i :| 0 <= i < |correctAnswer| && IsAngle(correctAnswer[i]);
    var key := Lower(correctAnswer);
    assert key[i] == correctAnswer[i];
    assert key[i] in key;
    assert key[i] !in Normalize(input);
  }

  /** Lower-casing keeps a string trimmed and bracket-free. */
  lemma LowerKeepsPlain(s: string)
    ensures IsTrimmed(s) ==> IsTrimmed(Lower(s))
    ensures (forall i :: 0 <= i < |s| ==> !IsAngle(s[i])) ==>
              forall i :: 0 <= i < |Lower(s)| ==> !IsAngle(Lower(s)[i])
  {
  }

  lemma LowerWrapped(s: string)
    ensures Lower("<" + s + ">") == "<" + Lower(s) + ">"
  {
    var w := "<" + s + ">";
    forall i | 0 < i < |w| - 1 ensures Lower(w)[i] == LowerChar(s[i - 1]) {
      assert w[i] == s[i - 1];
    }
  }

  lemma StripWrapped(k: string)
    requires forall i :: 0 <= i < |k| ==> !IsAngle(k[i])
    ensures StripAngles("<" + k + ">") == k
  {
    var w := "<" + k;
    assert "<" + k + ">" == w + ">";
    StripAnglesAppend(w, ">");
    StripAnglesAppend("<", k);
    assert StripAngles("<") == [];
    assert StripAngles(">") == [];
    assert StripAngles(k) == k;
  }

  /** A trimmed key without brackets is accepted typed as it is, in either case. */
  lemma PlainKeyAccepted(correctAnswer: string)
    requires IsTrimmed(correctAnswer)
    requires forall i :: 0 <= i < |correctAnswer| ==> !IsAngle(correctAnswer[i])
    ensures CheckAnswer(Some(correctAnswer), true, correctAnswer) == Correct
  {
    var key := Lower(correctAnswer);
    LowerKeepsPlain(correctAnswer);
    assert Trim(key) == key;
    assert StripAngles(key) == key;
  }

  /** The same key is also accepted wrapped in a tag's brackets. */
  lemma WrappedKeyAccepted(correctAnswer: string)
    requires forall i :: 0 <= i < |correctAnswer| ==> !IsAngle(correctAnswer[i])
    ensures CheckAnswer(Some("<" + correctAnswer + ">"), true, correctAnswer) == Correct
  {
    var key := Lower(correctAnswer);
    LowerKeepsPlain(correctAnswer);
    LowerWrapped(correctAnswer);
    var w := "<" + key + ">";
    assert w[0] == '<' && w[|w| - 1] == '>';
    assert Trim(w) == w;
    StripWrapped(key);
    assert Normalize("<" + correctAnswer + ">") == key;
  }

  /** Trimming happens before the brackets are stripped, so a space after a
      stray bracket survives and the answer is refused. */
  lemma SpaceAfterBracketRefused()
    ensures CheckAnswer(Some("< p"), true, "p") == TryAgain
  {
    assert Lower("< p") == "< p";
    assert IsTrimmed("< p");
    assert StripAngles("< p") == " p";
  }

  /** `${COURSE_ID}_${id}_completed`. */
  function FlagKey(courseId: string, id: string): (k: string)
    ensures |k| > |courseId| + |id|
    ensures k[..|courseId|] == courseId
  {
    courseId + "_" + id + "_completed"
  }

  /** Within one course, different item ids are stored under different keys. */
  lemma FlagKeyInjective(courseId: string, a: string, b: string)
    ensures FlagKey(courseId, a) == FlagKey(courseId, b) ==> a == b
  {
    var ka, kb := FlagKey(courseId, a), FlagKey(courseId, b);
    if ka == kb {
      assert |a| == |b|;
      forall i | 0 <= i < |a|
        ensures a[i] == b[i]
      {
        assert ka[|courseId| + 1 + i] == a[i];
        assert kb[|courseId| + 1 + i] == b[i];
      }
    }
  }

  /** The number of ids whose flag is exactly "true", counted position by
      position as `forEach` visits them. */
  function CountFlags(items: map<string, string>, courseId: string, ids: seq<string>): (n: nat)
    ensures n <= |ids|
    ensures (forall i :: 0 <= i < |ids| ==> FlagKey(courseId, ids[i]) !in items) ==> n == 0
  {
    if ids == [] then 0
    else
      var k := FlagKey(courseId, ids[|ids| - 1]);
      CountFlags(items, courseId, ids[..|ids| - 1]) + (if k in items && items[k] == "true" then 1 else 0)
  }

  /** The progress text: `Math.round(completed / total * 100)`, which is NaN
      when the page lists no items. */
  datatype ShownProgress = Percent(value: nat) | NotANumber

  function DisplayedProgress(completedItems: nat, totalItems: nat): (p: ShownProgress)
    ensures totalItems == 0 <==> p.NotANumber?
    ensures completedItems <= totalItems && p.Percent? ==> p.value <= 100
    ensures completedItems == totalItems && p.Percent? ==> p.value == 100
  {
    if totalItems == 0 then NotANumber
    else
      Ledger.RoundPercentBounds(completedItems, totalItems);
      Percent(Ledger.RoundPercent(completedItems, totalItems))
  }

  datatype ProgressView = ProgressView(completedItems: nat, totalItems: nat, text: ShownProgress)

  /** `calculateQuizScore`: 100 when the form exists and its q1 value equals
      the key, 0 otherwise. A missing q1 field reads as null, which equals
      neither a string nor an undefined key. */
  method CalculateQuizScore(formPresent: bool, q1Value: Option<string>, q1Key: Option<string>)
    returns (score: int)
    ensures score == 0 || score == 100
    ensures score == 100 <==> formPresent && q1Value.Some? && q1Key.Some? && q1Value.value == q1Key.value
  {
    score := 0;
    if !formPresent {
      return 0;
    }
    if q1Value.Some? && q1Key.Some? && q1Value.value == q1Key.value {
      score := 100;
    }
  }

  /** The page's quiz id, fixed in the script. */
  const QuizId: string := "quiz_1"

  /** The browser's key-value store as the page uses it. */
  class LocalStore {
    var items: map<string, string>

    constructor (items0: map<string, string>)
      ensures items == items0
    {
      items := items0;
    }

    /** `updateProgressDisplay`: count the flagged sections, then the
        flagged quizzes. */
    method UpdateProgressDisplay(courseId: string, courseSections: seq<string>, courseQuizzes: seq<string>)
      returns (view: ProgressView)
      ensures view.totalItems == |courseSections| + |courseQuizzes|
      ensures view.completedItems == CountFlags(items, courseId, courseSections)
                                     + CountFlags(items, courseId, courseQuizzes)
      ensures view.completedItems <= view.totalItems
      ensures view.text == DisplayedProgress(view.completedItems, view.totalItems)
    {
      var totalItems := |courseSections| + |courseQuizzes|;
      var completedItems := 0;
      var i := 0;
      while i < |courseSections|
        invariant 0 <= i <= |courseSections|
        invariant completedItems == CountFlags(items, courseId, courseSections[..i])
      {
        assert courseSections[..i + 1][..i] == courseSections[..i];
        var key := FlagKey(courseId, courseSections[i]);
        if key in items && items[key] == "true" {
          completedItems := completedItems + 1;
        }
        i := i + 1;
      }
      assert courseSections[..i] == courseSections;
      var sectionsDone := completedItems;
      var j := 0;
      while j < |courseQuizzes|
        invariant 0 <= j <= |courseQuizzes|
        invariant completedItems == sectionsDone + CountFlags(items, courseId, courseQuizzes[..j])
      {
        assert courseQuizzes[..j + 1][..j] == courseQuizzes[..j];
        var key := FlagKey(courseId, courseQuizzes[j]);
        if key in items && items[key] == "true" {
          completedItems := completedItems + 1;
        }
        j := j + 1;
      }
      assert courseQuizzes[..j] == courseQuizzes;
      view := ProgressView(completedItems, totalItems, DisplayedProgress(completedItems, totalItems));
    }

    /** `markComplete`: set the section's flag to "true", then redraw. */
    method MarkComplete(courseId: string, sectionId: string, courseSections: seq<string>,
                        courseQuizzes: seq<string>)
      returns (view: ProgressView)
      modifies this
      ensures items == old(items)[FlagKey(courseId, sectionId) := "true"]
      ensures view.completedItems == CountFlags(items, courseId, courseSections)
                                     + CountFlags(items, courseId, courseQuizzes)
      ensures view.totalItems == |courseSections| + |courseQuizzes|
    {
      items := items[FlagKey(courseId, sectionId) := "true"];
      view := UpdateProgressDisplay(courseId, courseSections, courseQuizzes);
    }

    /** `submitCourseQuiz`: the quiz flag is set only on a score of 100. */
    method SubmitCourseQuiz(courseId: string, formPresent: bool, q1Value: Option<string>,
                            q1Key: Option<string>, courseSections: seq<string>, courseQuizzes: seq<string>)
      returns (score: int, view: ProgressView)
      modifies this
      ensures score == 100 <==> formPresent && q1Value.Some? && q1Key.Some? && q1Value.value == q1Key.value
      ensures score == 100 ==> items == old(items)[FlagKey(courseId, QuizId) := "true"]
      ensures score != 100 ==> items == old(items)
      ensures view.completedItems == CountFlags(items, courseId, courseSections)
                                     + CountFlags(items, courseId, courseQuizzes)
    {
      score := CalculateQuizScore(formPresent, q1Value, q1Key);
      if score == 100 {
        items := items[FlagKey(courseId, QuizId) := "true"];
      }
      view := UpdateProgressDisplay(courseId, courseSections, courseQuizzes);
    }
  }

  /** Setting a flag twice leaves the store as setting it once. */
  lemma MarkTwiceSameStore(items: map<string, string>, courseId: string, sectionId: string)
    ensures items[FlagKey(courseId, sectionId) := "true"][FlagKey(courseId, sectionId) := "true"]
            == items[FlagKey(courseId, sectionId) := "true"]
  {
  }

  /** Flagging an id raises the count over a list holding it once by one,
      and leaves it alone when the id was already flagged. */
  lemma {:induction false} FlagRaisesCount(items: map<string, string>, courseId: string,
                                           ids: seq<string>, id: string)
    requires exists i :: 0 <= i < |ids| && ids[i] == id
    requires forall i, j :: 0 <= i < j < |ids| ==> ids[i] != ids[j]
    ensures var before := CountFlags(items, courseId, ids);
            var after := CountFlags(items[FlagKey(courseId, id) := "true"], courseId, ids);
            var k := FlagKey(courseId, id);
            after == if k in items && items[k] == "true" then before else before + 1
    decreases |ids|
  {
    var last := ids[|ids| - 1];
    var prefix := ids[..|ids| - 1];
    var flagged := items[FlagKey(courseId, id) := "true"];
    if last == id {
      assert id !in prefix by {
        forall i | 0 <= i < |prefix| ensures prefix[i] != id {
          assert prefix[i] == ids[i];
        }
      }
      SameCountWithout(items, courseId, prefix, id);
    } else {
      assert exists i :: 0 <= i < |prefix| && prefix[i] == id by {
        var i :| 0 <= i < |ids| && ids[i] == id;
        assert prefix[i] == id;
      }
      FlagRaisesCount(items, courseId, prefix, id);
      FlagKeyInjective(courseId, last, id);
    }
  }

  /** Flagging an id the list does not name leaves its count unchanged. */
  lemma {:induction false} SameCountWithout(items: map<string, string>, courseId: string,
                                            ids: seq<string>, id: string)
    requires forall i :: 0 <= i < |ids| ==> ids[i] != id
    ensures CountFlags(items[FlagKey(courseId, id) := "true"], courseId, ids) == CountFlags(items, courseId, ids)
    decreases |ids|
  {
    if ids != [] {
      var prefix := ids[..|ids| - 1];
      assert forall i :: 0 <= i < |prefix| ==> prefix[i] == ids[i];
      SameCountWithout(items, courseId, prefix, id);
      FlagKeyInjective(courseId, ids[|ids| - 1], id);
    }
  }
}
