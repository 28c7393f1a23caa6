/** The demo course page's two navigators: the sidebar of sections with
    previous/next buttons and completion ticks, and the ten-question exam
    with its number strip and progress fill. */
module CourseNav {

  // ---------------------------------------------------------------------
  // Section navigation

  /** The number of content panels the page toggles (text, image, video,
      audio, combo, quiz, exam). */
  const PanelCount: nat := 7

  /** A sidebar item's check icon: absent, still marked 'empty', or ticked. */
  datatype CheckIcon = NoIcon | EmptyIcon | Ticked

  /** Ticking changes only an icon that is still empty. */
  function Tick(icon: CheckIcon): (t: CheckIcon)
    ensures icon == EmptyIcon ==> t == Ticked
    ensures icon != EmptyIcon ==> t == icon
    ensures t != EmptyIcon
  {
    if icon == EmptyIcon then Ticked else icon
  }

  /** The index the next button moves to: one on, unless already last. */
  function NextIndex(current: int, count: nat): (i: int)
    ensures 0 <= current < count ==> 0 <= i < count
    ensures current < count - 1 ==> i == current + 1
    ensures current >= count - 1 ==> i == current
  {
    if current < count - 1 then current + 1 else current
  }

  /** The index the previous button moves to: one back, unless already first. */
  function PrevIndex(current: int): (i: int)
    ensures 0 <= current ==> 0 <= i <= current
    ensures current > 0 ==> i == current - 1
    ensures current <= 0 ==> i == current
  {
    if current > 0 then current - 1 else current
  }

  /** Walking forward always ends on the last section, and never passes it. */
  lemma {:induction false} NextReachesLast(current: int, count: nat, steps: nat)
    requires 0 <= current < count && steps >= count - 1 - current
    ensures Iterate(current, count, steps) == count - 1
    decreases steps
  {
    if steps > 0 {
      NextReachesLast(NextIndex(current, count), count, steps - 1);
    }
  }

  /** `steps` presses of the next button. */
  function Iterate(current: int, count: nat, steps: nat): int
    decreases steps
  {
    if steps == 0 then current else Iterate(NextIndex(current, count), count, steps - 1)
  }

  class SectionNavigator {
    /** `sectionArray.length`. */
    const count: nat
    /** `currentSectionIndex`. */
    var current: int
    /** Which sidebar items carry the 'completed' class. */
    var completed: seq<bool>
    var icons: seq<CheckIcon>
    /** Which sidebar items carry 'active-now'. */
    var activeNow: seq<bool>
    /** Which of the seven panels are hidden. */
    var hidden: seq<bool>
    var prevDisabled: bool
    var nextDisabled: bool

    /** The index stays within the list and the buttons match it. */
    ghost predicate Valid()
      reads this
    {
      && |completed| == count && |icons| == count && |activeNow| == count && |hidden| == PanelCount
      && 0 <= current && (if count > 0 then current < count else current == 0)
      && ButtonsMatch()
    }

    /** Item `i` alone is 'active-now' and panel `i` alone is visible. */
    predicate IsShowing(i: int)
      reads this
    {
      && |activeNow| == count && (forall j :: 0 <= j < count ==> activeNow[j] == (j == i))
      && |hidden| == PanelCount && (forall j :: 0 <= j < PanelCount ==> hidden[j] == (j != i))
    }

    /** `updateNavigationButtons`: prev is disabled exactly on the first
        section, next exactly on the last. */
    predicate ButtonsMatch()
      reads this
    {
      prevDisabled == (current == 0) && nextDisabled == (current == count - 1)
    }

    /** Page load: index 0, the markup's classes and icons, then the
        buttons updated once. */
    constructor (completed0: seq<bool>, icons0: seq<CheckIcon>, activeNow0: seq<bool>, hidden0: seq<bool>)
      requires |completed0| == |icons0| == |activeNow0| && |hidden0| == PanelCount
      ensures Valid()
      ensures count == |completed0| && current == 0
      ensures completed == completed0 && icons == icons0 && activeNow == activeNow0 && hidden == hidden0
      ensures prevDisabled && nextDisabled == (count == 1)
    {
      count := |completed0|;
      current := 0;
      completed := completed0;
      icons := icons0;
      activeNow := activeNow0;
      hidden := hidden0;
      prevDisabled := true;
      nextDisabled := 0 == |completed0| - 1;
    }

    /** A click on sidebar item i: it alone becomes active, the index moves
        to it, the buttons follow, and only panel i (when there is one)
        stays visible. */
    method Select(i: nat)
      requires Valid() && i < count
      modifies this
      ensures Valid()
      ensures current == i
      ensures activeNow == seq(count, j => j == i)
      ensures hidden == seq(PanelCount, j => j != i)
      ensures completed == old(completed) && icons == old(icons)
    {
      activeNow := seq(count, j => j == i);
      current := i;
      prevDisabled := current == 0;
      nextDisabled := current == count - 1;
      hidden := seq(PanelCount, j => j != i);
    }

    /** `markSectionAsCompleted`: marks the item at the current index,
        whatever index it is given, and ticks its icon if still empty. */
    method MarkSectionAsCompleted(sectionIndex: int)
      requires Valid() && count > 0
      modifies this`completed, this`icons
      ensures Valid()
      ensures completed == old(completed)[current := true]
      ensures icons == old(icons)[current := Tick(old(icons)[current])]
    {
      completed := completed[current := true];
      if icons[current] == EmptyIcon {
        icons := icons[current := Ticked];
      }
    }

    /** The previous button. */
    method Prev()
      requires Valid()
      modifies this
      ensures Valid()
      ensures current == PrevIndex(old(current))
      ensures completed == old(completed) && icons == old(icons)
      ensures old(current) == 0 ==> activeNow == old(activeNow) && hidden == old(hidden)
      ensures old(current) > 0 ==> IsShowing(current)
    {
      if current > 0 {
        Select(current - 1);
      }
    }

    /** The next button: mark the current section, then move on. On the
        last section nothing happens. */
    method Next()
      requires Valid()
      modifies this
      ensures Valid()
      ensures current == NextIndex(old(current), count)
      ensures old(current) < count - 1 ==>
                && completed == old(completed)[old(current) := true]
                && icons == old(icons)[old(current) := Tick(old(icons)[old(current)])]
                && IsShowing(current)
      ensures old(current) >= count - 1 ==>
                completed == old(completed) && icons == old(icons)
                && activeNow == old(activeNow) && hidden == old(hidden)
    {
      if current < count - 1 {
        MarkSectionAsCompleted(current);
        Select(current + 1);
      }
    }
  }

  // ---------------------------------------------------------------------
  // Exam navigation

  /** The exam has ten questions; the script hard-codes the number. */
  const QuestionCount: nat := 10

  /** The next button's caption. */
  function NextLabel(question: int): (caption: string)
    ensures caption == "Selesai" <==> question == QuestionCount
  {
    if question == QuestionCount then "Selesai" else "Selanjutnya \U{2192}"
  }

  /** The progress fill's width in percent. */
  function ExamWidth(question: int): (w: int)
    ensures w == 10 * question
    ensures 1 <= question <= QuestionCount ==> 10 <= w <= 100
    ensures question == QuestionCount ==> w == 100
  {
    question * 10
  }

  class ExamNavigator {
    /** `currentQuestion`, counted from 1. */
    var question: int
    /** Which number in the strip carries 'active'. */
    var active: seq<bool>
    var prevDisabled: bool
    var nextLabel: string
    /** The progress fill's width in percent. */
    var width: int

    ghost predicate Valid()
      reads this
    {
      1 <= question <= QuestionCount && |active| == QuestionCount
    }

    /** Exactly number `index` (from 0) of the strip carries 'active'. */
    predicate IsActive(index: int)
      reads this
    {
      |active| == QuestionCount && forall j :: 0 <= j < QuestionCount ==> active[j] == (j == index)
    }

    /** `updateExamNavButtons` has run since the last move. */
    predicate ButtonsMatch()
      reads this
    {
      prevDisabled == (question == 1) && nextLabel == NextLabel(question)
    }

    /** Page load: question 1; the strip, buttons and fill are as the
        markup has them until the first click. */
    constructor (active0: seq<bool>, prevDisabled0: bool, nextLabel0: string, width0: int)
      requires |active0| == QuestionCount
      ensures Valid() && question == 1
      ensures active == active0 && prevDisabled == prevDisabled0 && nextLabel == nextLabel0 && width == width0
    {
      question := 1;
      active := active0;
      prevDisabled := prevDisabled0;
      nextLabel := nextLabel0;
      width := width0;
    }

    /** A click on number `index` (from 0). */
    method SelectQuestion(index: nat)
      requires Valid() && index < QuestionCount
      modifies this
      ensures Valid() && ButtonsMatch()
      ensures question == index + 1
      ensures active == seq(QuestionCount, j => j == index)
      ensures width == ExamWidth(question)
    {
      active := seq(QuestionCount, j => j == index);
      question := index + 1;
      width := question * 10;
      prevDisabled := question == 1;
      if question == QuestionCount {
        nextLabel := "Selesai";
      } else {
        nextLabel := "Selanjutnya \U{2192}";
      }
    }

    /** The previous button: back one question unless on the first. */
    method Prev()
      requires Valid()
      modifies this
      ensures Valid()
      ensures question == if old(question) > 1 then old(question) - 1 else old(question)
      ensures old(question) > 1 ==> ButtonsMatch() && width == ExamWidth(question) && IsActive(question - 1)
      ensures old(question) == 1 ==> active == old(active) && width == old(width)
                                     && prevDisabled == old(prevDisabled) && nextLabel == old(nextLabel)
    {
      if question > 1 {
        SelectQuestion(question - 2);
      }
    }

    /** The next button: forward one question, or submit on the last one. */
    method Next() returns (submitted: bool)
      requires Valid()
      modifies this
      ensures Valid()
      ensures submitted <==> old(question) == QuestionCount
      ensures !submitted ==> question == old(question) + 1 && ButtonsMatch() && width == ExamWidth(question)
                             && IsActive(question - 1)
      ensures submitted ==> question == old(question) && active == old(active) && width == old(width)
                            && prevDisabled == old(prevDisabled) && nextLabel == old(nextLabel)
    {
      if question < QuestionCount {
        SelectQuestion(question);
        submitted := false;
      } else {
        submitted := true;
      }
    }
  }
}
