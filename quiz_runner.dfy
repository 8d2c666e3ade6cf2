/**
 * The quiz runner page: it fetches the published cases of the chosen category, shuffles them in place
 * (Fisher–Yates, `pick(i)` standing for `Math.floor(Math.random() * (i + 1))`), takes the first five,
 * and then walks through them: choose, confirm (one scored item per question), next, and at the last
 * question submits the attempt. The page state and the `hasLoggedStart` ref are the fields of one object.
 */
module QuizRunner {
  import opened Wrappers
  import opened Schema
  import opened Seqs
  import opened Text
  import opened SubmitQuiz

  /** The questions a quiz has. */
  const QuizLength: nat := 5

  // ---------------------------------------------------------------------------------------
  // shuffleArray
  // ---------------------------------------------------------------------------------------

  function Swap<T>(s: seq<T>, i: nat, j: nat): (r: seq<T>)
    requires i < |s| && j < |s|
    ensures |r| == |s| && r[i] == s[j] && r[j] == s[i]
    ensures forall k :: 0 <= k < |s| && k != i && k != j ==> r[k] == s[k]
  {
    s[i := s[j]][j := s[i]]
  }

  /** A swap keeps the elements. */
  lemma SwapPermutes<T>(s: seq<T>, i: nat, j: nat)
    requires i < |s| && j < |s|
    ensures multiset(Swap(s, i, j)) == multiset(s)
  {
  }

  /** The swaps of the loop from index `i` down to 1, `pick(k)` being the partner of index `k`. */
  function ShuffleFrom<T>(s: seq<T>, i: int, pick: nat -> nat): (r: seq<T>)
    requires i < |s|
    requires forall k :: 0 < k <= i ==> pick(k) <= k
    ensures |r| == |s|
    decreases i
  {
    if i <= 0 then s else ShuffleFrom(Swap(s, i, pick(i)), i - 1, pick)
  }

  /** What `shuffleArray` leaves in the array. */
  function Shuffle<T>(s: seq<T>, pick: nat -> nat): seq<T>
    requires forall k :: 0 < k < |s| ==> pick(k) <= k
  {
    ShuffleFrom(s, |s| - 1, pick)
  }

  /** Whatever the random choices, the shuffle is a permutation. */
  lemma {:induction false} ShufflePermutes<T>(s: seq<T>, i: int, pick: nat -> nat)
    requires i < |s|
    requires forall k :: 0 < k <= i ==> pick(k) <= k
    ensures multiset(ShuffleFrom(s, i, pick)) == multiset(s)
    decreases i
  {
    if i > 0 {
      SwapPermutes(s, i, pick(i));
      ShufflePermutes(Swap(s, i, pick(i)), i - 1, pick);
    }
  }

  /** `shuffleArray`: swaps `array[i]` with `array[pick(i)]` for `i` from the last index down to 1. */
  method ShuffleArray<T>(a: array<T>, pick: nat -> nat)
    modifies a
    requires forall k :: 0 < k < a.Length ==> pick(k) <= k
    ensures a[..] == Shuffle(old(a[..]), pick)
    ensures multiset(a[..]) == multiset(old(a[..]))
  {
    var i := a.Length - 1;
    while i > 0
      invariant -1 <= i < a.Length
      invariant ShuffleFrom(a[..], i, pick) == Shuffle(old(a[..]), pick)
      decreases i
    {
      var j := pick(i);
      ghost var before := a[..];
      a[i], a[j] := a[j], a[i];
      assert a[..] == Swap(before, i, j);
      i := i - 1;
    }
    ShufflePermutes(old(a[..]), a.Length - 1, pick);
  }

  /** `shuffleArray(allCases).slice(0, 5)`. */
  method PickQuestions(allCases: seq<Case>, pick: nat -> nat) returns (qs: seq<Case>)
    requires |allCases| >= QuizLength
    requires forall k :: 0 < k < |allCases| ==> pick(k) <= k
    ensures qs == Shuffle(allCases, pick)[..QuizLength]
  {
    var arr := new Case[|allCases|](k requires 0 <= k < |allCases| => allCases[k]);
    assert arr[..] == allCases;
    ShuffleArray(arr, pick);
    qs := arr[..QuizLength];
  }

  // ---------------------------------------------------------------------------------------
  // The question selection
  // ---------------------------------------------------------------------------------------

  /** `searchParams.get("category") || "All"`. */
  function CategoryParam(param: Option<string>): (c: string)
    ensures c != ""
  {
    if param.None? || param.value == "" then "All" else param.value
  }

  /** The query's condition: published, and of the category unless it is "All". */
  function Matches(category: string): Case -> bool {
    (c: Case) => c.status == Published && (category == "All" || CategoryName(c.category) == category)
  }

  /** The query result: the matching cases of the collection, in snapshot order. */
  function Fetched(cases: seq<Case>, category: string): (r: seq<Case>)
    ensures forall c :: c in r <==> c in cases && c.status == Published && (category == "All" || CategoryName(c.category) == category)
  {
    Filter(cases, Matches(category))
  }

  function NotEnoughMessage(found: nat): string {
    "Not enough cases available. Need at least 5, found " + NatToString(found) + "."
  }

  /** The message a signed-in fetch ends with, if it does not load questions: the read error, or too few
    * matching cases. */
  function FetchError(found: nat, readFailure: Option<string>): (m: Option<string>)
    ensures m.None? <==> readFailure.None? && found >= QuizLength
  {
    if readFailure.Some? then Some("Error loading questions: " + readFailure.value)
    else if found < QuizLength then Some(NotEnoughMessage(found))
    else None
  }

  /** A confirmed answer, scored against its question. */
  predicate Scored(item: AttemptItem, q: Case) {
    item.caseId == q.id && item.isCorrect == (item.selected == q.correctAnswer)
  }

  function IsRight(): AttemptItem -> bool {
    (i: AttemptItem) => i.isCorrect
  }

  /** The payload `saveResult` sends to the attempt submission. */
  function Payload(category: string, questions: seq<Case>, items: seq<AttemptItem>): AttemptData {
    AttemptData(category, |questions|, Count(items, IsRight()), items)
  }

  /** A finished run's payload: one item per question, `correct` the right answers among them, all of the
    * total exactly when every answer was right and none when every answer was wrong. */
  lemma PayloadScores(category: string, questions: seq<Case>, items: seq<AttemptItem>)
    requires |items| == |questions|
    requires forall k :: 0 <= k < |items| ==> Scored(items[k], questions[k])
    ensures var p := Payload(category, questions, items);
      && p.total == |p.items| && 0 <= p.correct <= p.total
      && (p.correct == p.total <==> forall k :: 0 <= k < |items| ==> items[k].selected == questions[k].correctAnswer)
      && (p.correct == 0 <==> forall k :: 0 <= k < |items| ==> items[k].selected != questions[k].correctAnswer)
  {
    CountAll(items, IsRight());
    if Count(items, IsRight()) == 0 {
      forall k | 0 <= k < |items| ensures items[k].selected != questions[k].correctAnswer {
        if items[k].isCorrect { CountPositive(items, IsRight(), k); }
      }
    } else if forall k :: 0 <= k < |items| ==> items[k].selected != questions[k].correctAnswer {
      CountNone(items, IsRight());
    }
  }

  // ---------------------------------------------------------------------------------------
  // The runner
  // ---------------------------------------------------------------------------------------

  datatype RunnerEvent =
    | QuizStarted(uid: string, category: string)
    | AnswerLogged(uid: string, caseId: string, isCorrect: bool, selected: int, caseCategory: string)

  predicate IsStartEvent(e: RunnerEvent) {
    e.QuizStarted?
  }

  function IsStart(): RunnerEvent -> bool {
    (e: RunnerEvent) => IsStartEvent(e)
  }

  class Runner {
    const category: string
    var questions: seq<Case>
    var currentIndex: nat
    var selectedChoice: Option<int>
    var isAnswered: bool
    var attemptItems: seq<AttemptItem>
    var loading: bool
    var errorMsg: string
    var hasLoggedStart: bool
    /** The events the page logged, oldest first. */
    var events: seq<RunnerEvent>
    /** The payloads handed to the attempt submission, with the submitting uid. */
    var submissions: seq<(string, AttemptData)>
    /** Where the page navigated after a successful submission. */
    var resultPath: Option<string>

    /** The run so far: one scored item per question up to the current one (included once it is confirmed),
      * and at most one `start_quiz` event. */
    ghost predicate Valid()
      reads this
    {
      && Count(events, IsStart()) == (if hasLoggedStart then 1 else 0)
      && (questions == [] ==> currentIndex == 0 && !isAnswered && attemptItems == [])
      && (questions != [] ==> currentIndex < |questions|)
      && |attemptItems| == currentIndex + (if isAnswered then 1 else 0)
      && (isAnswered ==> selectedChoice.Some?)
      && forall k :: 0 <= k < |attemptItems| ==> k < |questions| && Scored(attemptItems[k], questions[k])
    }

    constructor (categoryParam: Option<string>)
      ensures Valid()
      ensures category == CategoryParam(categoryParam)
      ensures questions == [] && currentIndex == 0 && selectedChoice == None && !isAnswered
      ensures attemptItems == [] && loading && errorMsg == "" && !hasLoggedStart
      ensures events == [] && submissions == [] && resultPath == None
    {
      category := CategoryParam(categoryParam);
      questions := [];
      currentIndex := 0;
      selectedChoice := None;
      isAnswered := false;
      attemptItems := [];
      loading := true;
      errorMsg := "";
      hasLoggedStart := false;
      events := [];
      submissions := [];
      resultPath := None;
    }

    /** The state of the run through the questions, which loading does not touch. */
    function Progress(): (nat, bool, Option<int>, seq<AttemptItem>, seq<(string, AttemptData)>, Option<string>)
      reads this
    {
      (currentIndex, isAnswered, selectedChoice, attemptItems, submissions, resultPath)
    }

    /** `fetchQuestions`, run by the effect when a user is signed in. `cases` is the `cases` collection,
      * `readFailure` the error the query raises, if any. */
    method FetchQuestions(user: Option<string>, cases: seq<Case>, pick: nat -> nat, readFailure: Option<string>)
      modifies this
      requires Valid() && questions == []
      requires forall k :: 0 < k < |Fetched(cases, category)| ==> pick(k) <= k
      ensures Valid()
      ensures Progress() == old(Progress())
      ensures user.None? ==> questions == [] && loading == old(loading) && errorMsg == old(errorMsg) && events == old(events)
      ensures user.Some? ==> !loading
      ensures user.Some? && FetchError(|Fetched(cases, category)|, readFailure).Some? ==>
        && questions == [] && errorMsg == FetchError(|Fetched(cases, category)|, readFailure).value
        && events == old(events) && hasLoggedStart == old(hasLoggedStart)
      ensures user.Some? && FetchError(|Fetched(cases, category)|, readFailure).None? ==>
        && questions == Shuffle(Fetched(cases, category), pick)[..QuizLength]
        && errorMsg == old(errorMsg) && hasLoggedStart
        && events == old(events) + if old(hasLoggedStart) then [] else [QuizStarted(user.value, category)]
    {
      if user.Some? {
        var allCases := Fetched(cases, category);
        var failure := FetchError(|allCases|, readFailure);
        if failure.Some? {
          errorMsg := failure.value;
        } else {
          questions := PickQuestions(allCases, pick);
          if !hasLoggedStart {
            LogStart(user.value);
          }
        }
        loading := false;
      }
    }

    /** Logs `start_quiz` and sets the ref. */
    method LogStart(uid: string)
      modifies this
      requires Count(events, IsStart()) == 0 && !hasLoggedStart
      ensures Count(events, IsStart()) == 1 && hasLoggedStart
      ensures events == old(events) + [QuizStarted(uid, category)]
      ensures questions == old(questions) && Progress() == old(Progress()) && loading == old(loading)
      ensures errorMsg == old(errorMsg)
    {
      CountSnoc(events, QuizStarted(uid, category), IsStart());
      events := events + [QuizStarted(uid, category)];
      hasLoggedStart := true;
    }

    /** A click on choice `idx`: `!isAnswered && setSelectedChoice(idx)`. */
    method SelectChoice(idx: int)
      modifies this
      requires Valid()
      ensures Valid()
      ensures selectedChoice == if old(isAnswered) then old(selectedChoice) else Some(idx)
      ensures questions == old(questions) && currentIndex == old(currentIndex) && isAnswered == old(isAnswered)
      ensures attemptItems == old(attemptItems) && events == old(events) && submissions == old(submissions)
    {
      if !isAnswered {
        selectedChoice := Some(idx);
      }
    }

    /** `handleConfirm`, offered while the current question is unanswered: nothing without a selection, else
      * the answer is logged and scored. */
    method HandleConfirm(user: Option<string>, now: int)
      modifies this
      requires Valid() && questions != [] && !isAnswered
      ensures Valid()
      ensures old(selectedChoice).None? ==>
        isAnswered == old(isAnswered) && attemptItems == old(attemptItems) && events == old(events)
      ensures old(selectedChoice).Some? ==>
        var q := old(questions)[old(currentIndex)];
        var sel := old(selectedChoice).value;
        && isAnswered
        && attemptItems == old(attemptItems) + [AttemptItem(q.id, sel, sel == q.correctAnswer, now)]
        && events == old(events) +
             if user.Some? then [AnswerLogged(user.value, q.id, sel == q.correctAnswer, sel, CategoryName(q.category))]
             else []
      ensures questions == old(questions) && currentIndex == old(currentIndex) && selectedChoice == old(selectedChoice)
      ensures hasLoggedStart == old(hasLoggedStart) && submissions == old(submissions)
    {
      if selectedChoice.None? {
        return;
      }
      isAnswered := true;
      var currentQ := questions[currentIndex];
      var sel := selectedChoice.value;
      var isCorrect := sel == currentQ.correctAnswer;
      if user.Some? {
        var e := AnswerLogged(user.value, currentQ.id, isCorrect, sel, CategoryName(currentQ.category));
        CountSnoc(events, e, IsStart());
        events := events + [e];
      }
      attemptItems := attemptItems + [AttemptItem(currentQ.id, sel, isCorrect, now)];
    }

    /** `saveResult`: signed in, it submits the payload; `attemptId` is the id a successful submission
      * returns, `None` when it fails. */
    method SaveResult(user: Option<string>, attemptId: Option<string>)
      modifies this
      requires Valid()
      ensures Valid()
      ensures user.None? ==> submissions == old(submissions) && loading == old(loading) && resultPath == old(resultPath)
      ensures user.Some? ==> submissions == old(submissions) + [(user.value, Payload(category, questions, attemptItems))]
      ensures user.Some? && attemptId.Some? ==> loading && resultPath == Some("/quiz/result/" + attemptId.value)
      ensures user.Some? && attemptId.None? ==> !loading && resultPath == old(resultPath)
      ensures questions == old(questions) && currentIndex == old(currentIndex) && isAnswered == old(isAnswered)
      ensures attemptItems == old(attemptItems) && events == old(events) && selectedChoice == old(selectedChoice)
    {
      if user.None? {
        return;
      }
      loading := true;
      var payload := Payload(category, questions, attemptItems);
      submissions := submissions + [(user.value, payload)];
      if attemptId.Some? {
        resultPath := Some("/quiz/result/" + attemptId.value);
      } else {
        loading := false;
      }
    }

    /** `handleNext`, offered once the current question is answered: the next question with the selection
      * cleared, or at the last question the submission of the run. */
    method HandleNext(user: Option<string>, attemptId: Option<string>)
      modifies this
      requires Valid() && questions != [] && isAnswered
      ensures Valid()
      ensures old(currentIndex) < |questions| - 1 ==>
        currentIndex == old(currentIndex) + 1 && selectedChoice == None && !isAnswered && submissions == old(submissions)
      ensures old(currentIndex) == |questions| - 1 ==>
        && currentIndex == old(currentIndex) && isAnswered
        && |attemptItems| == |questions|
        && submissions == old(submissions) + if user.Some? then [(user.value, Payload(category, questions, attemptItems))] else []
      ensures questions == old(questions) && attemptItems == old(attemptItems) && events == old(events)
    {
      if currentIndex < |questions| - 1 {
        currentIndex := currentIndex + 1;
        selectedChoice := None;
        isAnswered := false;
      } else {
        SaveResult(user, attemptId);
      }
    }
  }

  /** A finished run submits a payload whose items score every question once, in order. */
  lemma FinishedRunScores(r: Runner)
    requires r.Valid() && r.questions != [] && r.isAnswered && r.currentIndex == |r.questions| - 1
    ensures |r.attemptItems| == |r.questions|
    ensures forall k :: 0 <= k < |r.attemptItems| ==> Scored(r.attemptItems[k], r.questions[k])
  {
  }
}
