/** The quiz session: one question at a time, taken in turn (wrapping around) from
    the current pool, through the steps answering -> correction / completed, with the
    "incorrect" and "mastered" tables updated along the way. */
module Quiz {
  import opened Wrappers
  import opened Text
  import opened Grading
  import opened QuizBank
  import opened Progress
  import opened PoolFilter

  datatype Step = Answering | Correction | Completed

  /** The study mode: the whole bank filtered by unit, or the review of the incorrect table. */
  datatype Mode = Normal | IncorrectNotes

  /** The session state together with the two tables. */
  datatype State = State(
    pool: seq<Question>,
    qIndex: nat,
    quizData: Option<Question>,
    step: Step,
    input: string,
    lastWrongInput: Option<string>,
    mode: Mode,
    lastFilter: Option<string>,
    lastMode: Option<Mode>,
    incorrect: seq<Question>,
    mastered: seq<Question>)

  /** A new session over the stored tables. */
  function Fresh(incorrect: seq<Question>, mastered: seq<Question>): State {
    State([], 0, None, Answering, "", None, Normal, None, None, incorrect, mastered)
  }

  /** `next_question` */
  function Next(s: State): State {
    if s.pool == [] then s
    else s.(quizData := Some(s.pool[s.qIndex % |s.pool|]), step := Answering, input := "",
            lastWrongInput := None, qIndex := s.qIndex + 1)
  }

  /** The text box. */
  function Typed(s: State, text: string): State {
    s.(input := text)
  }

  /** Whether a submit consults the language model: only a non-blank answer does. */
  predicate AsksModel(s: State) {
    s.step == Answering && Strip(s.input) != []
  }

  /** `process_submit`, given the model's reply (`None` when the call fails) and the
      similarity ratio. */
  function Submit(s: State, reply: Option<string>, ratio: (string, string) -> real): State
    requires s.quizData.Some?
  {
    var q := s.quizData.value;
    match s.step
    case Answering =>
      if Strip(s.input) == [] then
        s.(step := Correction, incorrect := Added(s.incorrect, q), input := "")
      else if Grade(reply, ratio, s.input, q.eng) then
        s.(step := Completed,
           incorrect := if s.mode == IncorrectNotes then Removed(s.incorrect, q) else s.incorrect)
      else
        s.(step := Correction, lastWrongInput := Some(s.input),
           incorrect := Added(s.incorrect, q), input := "")
    case Correction =>
      if ratio(Normalise(s.input), Normalise(q.eng)) >= CorrectionThreshold then Next(s) else s
    case Completed =>
      Next(s)
  }

  /** `process_graduate` */
  function Graduate(s: State): State {
    match s.quizData
    case None => s
    case Some(q) => Next(s.(mastered := Added(s.mastered, q), incorrect := Removed(s.incorrect, q)))
  }

  /** The reset key of the normal mode's filter. */
  function FilterKey(sel: Selection, showMastered: bool): string {
    sel.major + "-" + sel.middle + "-" + sel.minor + "-" + (if showMastered then "True" else "False")
  }

  /** The sidebar in normal mode: the pool is recomputed, and a changed filter (or a
      return from the review mode) restarts the pool at its first question. */
  function ShowUnits(s: State, bank: seq<Question>, sel: Selection, showMastered: bool): State {
    var s1 := s.(mode := Normal, pool := Pool(bank, sel, showMastered, s.mastered));
    var key := FilterKey(sel, showMastered);
    if s.lastFilter != Some(key) || s.lastMode == Some(IncorrectNotes) then
      Next(s1.(lastFilter := Some(key), lastMode := Some(Normal), qIndex := 0))
    else s1
  }

  /** The sidebar in review mode: the pool is the incorrect table, restarted at its
      first question on entering the mode. */
  function ShowIncorrectNotes(s: State): State {
    var s1 := s.(mode := IncorrectNotes);
    if s.incorrect == [] then s1.(pool := [])
    else
      var s2 := s1.(pool := s.incorrect);
      if s.lastMode != Some(IncorrectNotes) then
        Next(s2.(lastMode := Some(IncorrectNotes), qIndex := 0))
      else s2
  }

  /** The main screen loads a first question when there is none. */
  function EnsureQuestion(s: State): State {
    if s.quizData.None? then Next(s.(qIndex := 0)) else s
  }

  // ---------------------------------------------------------------------------
  // Properties of the transitions.

  /** `next_question` leaves an empty pool alone; otherwise it shows the pool entry at
      the index (modulo the pool size), resets the step and the text box, forgets the
      wrong answer, and moves the index on by one. */
  lemma NextEffect(s: State)
    ensures s.pool == [] ==> Next(s) == s
    ensures s.pool != [] ==>
              Next(s).quizData == Some(s.pool[s.qIndex % |s.pool|]) &&
              Next(s).quizData.value in s.pool &&
              Next(s).step == Answering && Next(s).input == "" &&
              Next(s).lastWrongInput == None && Next(s).qIndex == s.qIndex + 1 &&
              Next(s).pool == s.pool && Next(s).incorrect == s.incorrect &&
              Next(s).mastered == s.mastered
  {
  }

  /** `n` questions further on. */
  function Advance(s: State, n: nat): State {
    if n == 0 then s else Next(Advance(s, n - 1))
  }

  /** Over a non-empty pool the session takes the questions in pool order and wraps around. */
  lemma {:induction false} AdvanceCycles(s: State, n: nat)
    requires s.pool != [] && n >= 1
    ensures Advance(s, n).pool == s.pool
    ensures Advance(s, n).qIndex == s.qIndex + n
    ensures Advance(s, n).quizData == Some(s.pool[(s.qIndex + n - 1) % |s.pool|])
  {
    if n > 1 {
      AdvanceCycles(s, n - 1);
    }
  }

  /** After as many questions as the pool holds, the same question comes round again. */
  lemma WrapsAround(s: State, n: nat)
    requires s.pool != [] && n >= 1
    ensures Advance(s, n + |s.pool|).quizData == Advance(s, n).quizData
  {
    AdvanceCycles(s, n);
    AdvanceCycles(s, n + |s.pool|);
    var p, x := |s.pool|, s.qIndex + n - 1;
    ModUnique(x + p, x / p + 1, p, x % p);
  }

  lemma MulAtLeast(d: int, p: int)
    requires d >= 1 && p > 0
    ensures d * p >= p
  {
    assert d * p == (d - 1) * p + p;
  }

  /** The remainder is determined by any quotient-remainder decomposition. */
  lemma ModUnique(z: int, a: int, p: int, r: int)
    requires p > 0 && 0 <= r < p && z == a * p + r
    ensures z % p == r
  {
    var a', r' := z / p, z % p;
    assert (a - a') * p == r' - r by {
      assert a * p - a' * p == (a - a') * p;
    }
    if a - a' >= 1 {
      MulAtLeast(a - a', p);
    } else if a' - a >= 1 {
      MulAtLeast(a' - a, p);
    }
  }

  /** A blank or whitespace-only answer goes to correction, records the question as
      incorrect and clears the text box, without consulting the model: the reply has
      no effect. */
  lemma BlankAnswer(s: State, reply: Option<string>, other: Option<string>, ratio: (string, string) -> real)
    requires s.quizData.Some? && s.step == Answering
    requires forall k :: 0 <= k < |s.input| ==> IsSpace(s.input[k])
    ensures var t := Submit(s, reply, ratio);
            t.step == Correction && t.input == "" &&
            t.incorrect == Added(s.incorrect, s.quizData.value) &&
            Holds(t.incorrect, s.quizData.value) &&
            t.lastWrongInput == s.lastWrongInput && t.quizData == s.quizData
    ensures !AsksModel(s)
    ensures Submit(s, reply, ratio) == Submit(s, other, ratio)
  {
    StripEmptyIff(s.input);
    AddIdempotent(s.incorrect, s.quizData.value);
  }

  /** A non-blank answer that fails grading goes to correction, remembers the answer,
      records the question as incorrect and clears the text box. */
  lemma WrongAnswer(s: State, reply: Option<string>, ratio: (string, string) -> real)
    requires s.quizData.Some? && s.step == Answering && Strip(s.input) != []
    requires !Grade(reply, ratio, s.input, s.quizData.value.eng)
    ensures var t := Submit(s, reply, ratio);
            t.step == Correction && t.lastWrongInput == Some(s.input) && t.input == "" &&
            t.incorrect == Added(s.incorrect, s.quizData.value) &&
            Holds(t.incorrect, s.quizData.value) && t.quizData == s.quizData
  {
    AddIdempotent(s.incorrect, s.quizData.value);
  }

  /** A non-blank answer that passes grading completes the question; only in the review
      mode does it leave the incorrect table, and it keeps the text box. */
  lemma RightAnswer(s: State, reply: Option<string>, ratio: (string, string) -> real)
    requires s.quizData.Some? && s.step == Answering && Strip(s.input) != []
    requires Grade(reply, ratio, s.input, s.quizData.value.eng)
    ensures var t := Submit(s, reply, ratio);
            t.step == Completed && t.input == s.input && t.quizData == s.quizData &&
            t.mastered == s.mastered &&
            (s.mode == Normal ==> t.incorrect == s.incorrect) &&
            (s.mode == IncorrectNotes ==> t.incorrect == Removed(s.incorrect, s.quizData.value)) &&
            (s.mode == IncorrectNotes && Unique(s.incorrect) ==> !Holds(t.incorrect, s.quizData.value))
  {
    if s.mode == IncorrectNotes && Unique(s.incorrect) {
      RemoveClears(s.incorrect, s.quizData.value);
    }
  }

  /** The model's reply outranks the similarity: a reply containing 'O' or 'o' completes
      the question and any other reply sends it to correction, whatever the ratio. */
  lemma ReplyDecides(s: State, t: string, ratio: (string, string) -> real)
    requires s.quizData.Some? && s.step == Answering && Strip(s.input) != []
    ensures Submit(s, Some(t), ratio).step == if 'O' in t || 'o' in t then Completed else Correction
  {
    ReplyOverridesSimilarity(ratio, s.input, s.quizData.value.eng, t);
  }

  /** Without a reply, the answer passes exactly when its similarity reaches 95 percent;
      an answer equal to the reference up to case, spaces and `. , ? !` passes. */
  lemma FallbackDecides(s: State, ratio: (string, string) -> real)
    requires s.quizData.Some? && s.step == Answering && Strip(s.input) != []
    requires IsRatio(ratio)
    ensures Submit(s, None, ratio).step ==
            if Similarity(ratio, s.input, s.quizData.value.eng) * 100.0 >= AcceptPercent
            then Completed else Correction
    ensures Canonical(s.input) == Canonical(s.quizData.value.eng) ==>
              Submit(s, None, ratio).step == Completed
  {
    FallbackGrade(ratio, s.input, s.quizData.value.eng);
  }

  /** In correction the session moves to the next question exactly when the similarity
      reaches 0.98, and otherwise stays as it is; copying the reference (up to case,
      spaces and `. , ? !`) always moves on. */
  lemma CorrectionStep(s: State, reply: Option<string>, ratio: (string, string) -> real)
    requires s.quizData.Some? && s.step == Correction && IsRatio(ratio)
    ensures Submit(s, reply, ratio) ==
            if Similarity(ratio, s.input, s.quizData.value.eng) >= CorrectionThreshold then Next(s) else s
    ensures Canonical(s.input) == Canonical(s.quizData.value.eng) ==> Submit(s, reply, ratio) == Next(s)
    ensures !AsksModel(s)
  {
    if Canonical(s.input) == Canonical(s.quizData.value.eng) {
      SimilarityMaximal(ratio, s.input, s.quizData.value.eng);
    }
  }

  /** Once completed, any submit moves to the next question. */
  lemma CompletedStep(s: State, reply: Option<string>, ratio: (string, string) -> real)
    requires s.quizData.Some? && s.step == Completed
    ensures Submit(s, reply, ratio) == Next(s)
  {
  }

  /** Graduating puts the question in the mastered table, takes it out of a duplicate-free
      incorrect table, and moves to the next question. */
  lemma Graduation(s: State)
    requires s.quizData.Some?
    ensures var q := s.quizData.value;
            Graduate(s) == Next(s.(mastered := Added(s.mastered, q), incorrect := Removed(s.incorrect, q))) &&
            Holds(Graduate(s).mastered, q) &&
            (Unique(s.incorrect) ==> !Holds(Graduate(s).incorrect, q))
  {
    AddIdempotent(s.mastered, s.quizData.value);
    if Unique(s.incorrect) {
      RemoveClears(s.incorrect, s.quizData.value);
    }
  }

  /** A changed filter (or a return from the review mode) restarts at the first question
      of the new pool; an unchanged filter keeps the current question. */
  lemma FilterReset(s: State, bank: seq<Question>, sel: Selection, showMastered: bool)
    ensures var t, pool := ShowUnits(s, bank, sel, showMastered), Pool(bank, sel, showMastered, s.mastered);
            t.pool == pool && t.mode == Normal &&
            (s.lastFilter != Some(FilterKey(sel, showMastered)) || s.lastMode == Some(IncorrectNotes) ==>
               t.lastFilter == Some(FilterKey(sel, showMastered)) && t.lastMode == Some(Normal) &&
               (pool != [] ==> t.quizData == Some(pool[0]) && t.qIndex == 1 && t.step == Answering)) &&
            (s.lastFilter == Some(FilterKey(sel, showMastered)) && s.lastMode != Some(IncorrectNotes) ==>
               t.quizData == s.quizData && t.qIndex == s.qIndex && t.step == s.step)
  {
  }

  /** Entering the review mode with a non-empty incorrect table starts at its first row. */
  lemma ReviewStart(s: State)
    requires s.incorrect != [] && s.lastMode != Some(IncorrectNotes)
    ensures ShowIncorrectNotes(s).pool == s.incorrect
    ensures ShowIncorrectNotes(s).quizData == Some(s.incorrect[0])
    ensures ShowIncorrectNotes(s).mode == IncorrectNotes && ShowIncorrectNotes(s).qIndex == 1
  {
  }

  /** What every reachable session satisfies: neither table holds an identity twice,
      and no wrong answer is remembered while a question is being answered. */
  predicate Consistent(s: State) {
    Unique(s.incorrect) && Unique(s.mastered) &&
    (s.step == Answering ==> s.lastWrongInput == None)
  }

  lemma InitialConsistent(incorrect: seq<Question>, mastered: seq<Question>)
    requires Unique(incorrect) && Unique(mastered)
    ensures Consistent(Fresh(incorrect, mastered))
  {
  }

  /** Moving on, typing, and loading a first question keep the session consistent. */
  lemma NextKeepsConsistent(s: State, text: string)
    requires Consistent(s)
    ensures Consistent(Next(s)) && Consistent(Typed(s, text)) && Consistent(EnsureQuestion(s))
  {
  }

  /** Submitting keeps the session consistent. */
  lemma SubmitKeepsConsistent(s: State, reply: Option<string>, ratio: (string, string) -> real)
    requires Consistent(s) && s.quizData.Some?
    ensures Consistent(Submit(s, reply, ratio))
  {
    AddKeepsUnique(s.incorrect, s.quizData.value);
    RemoveClears(s.incorrect, s.quizData.value);
  }

  /** Graduating keeps the session consistent. */
  lemma GraduateKeepsConsistent(s: State)
    requires Consistent(s)
    ensures Consistent(Graduate(s))
  {
    if s.quizData.Some? {
      var q := s.quizData.value;
      AddKeepsUnique(s.mastered, q);
      RemoveClears(s.incorrect, q);
      var t := s.(mastered := Added(s.mastered, q), incorrect := Removed(s.incorrect, q));
      assert Consistent(t);
    }
  }

  /** Changing the mode or the filter keeps the session consistent. */
  lemma SidebarKeepsConsistent(s: State, bank: seq<Question>, sel: Selection, showMastered: bool)
    requires Consistent(s)
    ensures Consistent(ShowUnits(s, bank, sel, showMastered))
    ensures Consistent(ShowIncorrectNotes(s))
  {
  }

  // ---------------------------------------------------------------------------
  // The session object.

  class Session {
    var pool: seq<Question>
    var qIndex: nat
    var quizData: Option<Question>
    var step: Step
    var input: string
    var lastWrongInput: Option<string>
    var mode: Mode
    var lastFilter: Option<string>
    var lastMode: Option<Mode>
    const incorrect: Table
    const mastered: Table

    ghost predicate Valid()
      reads this
    {
      incorrect != mastered
    }

    function View(): State
      reads this, incorrect, mastered
    {
      State(pool, qIndex, quizData, step, input, lastWrongInput, mode, lastFilter, lastMode,
            incorrect.rows, mastered.rows)
    }

    constructor (incorrect: Table, mastered: Table)
      requires incorrect != mastered
      ensures Valid() && this.incorrect == incorrect && this.mastered == mastered
      ensures View() == Fresh(incorrect.rows, mastered.rows)
    {
      pool, qIndex, quizData, step, input := [], 0, None, Answering, "";
      lastWrongInput, mode, lastFilter, lastMode := None, Normal, None, None;
      this.incorrect, this.mastered := incorrect, mastered;
    }

    /** `next_question` */
    method NextQuestion()
      requires Valid()
      modifies this
      ensures Valid() && View() == Next(old(View()))
    {
      if pool == [] {
        return;
      }
      var current := qIndex % |pool|;
      quizData := Some(pool[current]);
      step := Answering;
      input := "";
      lastWrongInput := None;
      qIndex := qIndex + 1;
    }

    /** The student types into the text box. */
    method Type(text: string)
      requires Valid()
      modifies this
      ensures Valid() && View() == Typed(old(View()), text)
    {
      input := text;
    }

    /** `process_submit`; `askedModel` says whether the model's reply was consulted. */
    method ProcessSubmit(reply: Option<string>, ratio: (string, string) -> real) returns (askedModel: bool)
      requires Valid() && quizData.Some?
      modifies this, incorrect
      ensures Valid() && View() == Submit(old(View()), reply, ratio)
      ensures askedModel == AsksModel(old(View()))
    {
      var q := quizData.value;
      askedModel := false;
      if step == Answering {
        if Strip(input) == [] {
          step := Correction;
          incorrect.Add(q);
          input := "";
        } else {
          askedModel := true;
          var verdict := ParseReply(reply);
          var score := ratio(Normalise(input), Normalise(q.eng)) * 100.0;
          var isCorrect := false;
          if verdict == Some(true) {
            isCorrect := true;
          } else if verdict == Some(false) {
            isCorrect := false;
          } else if score >= AcceptPercent {
            isCorrect := true;
          }
          if isCorrect {
            step := Completed;
            if mode == IncorrectNotes {
              incorrect.Remove(q);
            }
          } else {
            step := Correction;
            lastWrongInput := Some(input);
            incorrect.Add(q);
            input := "";
          }
        }
      } else if step == Correction {
        var sim := ratio(Normalise(input), Normalise(q.eng));
        if sim >= CorrectionThreshold {
          NextQuestion();
        }
      } else {
        NextQuestion();
      }
    }

    /** `process_graduate` */
    method ProcessGraduate()
      requires Valid()
      modifies this, incorrect, mastered
      ensures Valid() && View() == Graduate(old(View()))
    {
      if quizData.Some? {
        var q := quizData.value;
        mastered.Add(q);
        incorrect.Remove(q);
        NextQuestion();
      }
    }

    /** The sidebar in normal mode, with the unit drop-downs and the mastered check box. */
    method SelectUnits(bank: seq<Question>, sel: Selection, showMastered: bool)
      requires Valid()
      modifies this
      ensures Valid() && View() == ShowUnits(old(View()), bank, sel, showMastered)
    {
      mode := Normal;
      var filtered := FilterPool(bank, sel, showMastered, mastered.rows);
      pool := filtered;
      var filterKey := FilterKey(sel, showMastered);
      if lastFilter != Some(filterKey) || lastMode == Some(IncorrectNotes) {
        lastFilter := Some(filterKey);
        lastMode := Some(Normal);
        qIndex := 0;
        NextQuestion();
      }
    }

    /** The sidebar in review mode. */
    method SelectIncorrectNotes()
      requires Valid()
      modifies this
      ensures Valid() && View() == ShowIncorrectNotes(old(View()))
    {
      mode := IncorrectNotes;
      var incorrectList := incorrect.rows;
      if incorrectList == [] {
        pool := [];
      } else {
        pool := incorrectList;
        if lastMode != Some(IncorrectNotes) {
          lastMode := Some(IncorrectNotes);
          qIndex := 0;
          NextQuestion();
        }
      }
    }

    /** The main screen's first load. */
    method LoadFirstQuestion()
      requires Valid()
      modifies this
      ensures Valid() && View() == EnsureQuestion(old(View()))
    {
      if quizData.None? {
        qIndex := 0;
        NextQuestion();
      }
    }
  }
}
