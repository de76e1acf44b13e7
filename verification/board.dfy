/**
 * The Jeopardy question board: index checks and points
 * (backend/qg/qg_extras.go), data validation and the public game summary
 * (backend/qg/jeopardy.go).
 *
 * Scores and multipliers are floating point in the source; here they are
 * integers, and the multiplier is a nullable pointer (`Option<int>`).
 */
module Board {
  import opened Wrappers

  datatype Question = Question(question: string, answer: string)
  datatype Category = Category(name: string, questions: seq<Question>)
  datatype JeopardyGameData = JeopardyGameData(categories: seq<Category>, scoreMultiplier: Option<int>)

  /** The public summary sent to joining players. */
  datatype JeopardyGameInfo = JeopardyGameInfo(categories: seq<string>, numQuestions: int, scoreMultiplier: int)

  datatype BoardError = InvalidCategory(categoryIx: int) | InvalidQuestion(questionIx: int)

  datatype ValidationError =
    | NoCategories                                   // "no categories found, must have at least one"
    | UnevenCategory(number: int, got: nat, want: nat) // "category %d has %d questions, expected %d" (1-based)
    | NilMultiplierWrite                             // `*data.ScoreMultiplier = 100` through a nil pointer: a Go panic

  /** The multiplier the validator fills in when none is given. */
  const DefaultMultiplier := 100

  /** Whether (categoryIx, questionIx) names a question of the board. */
  predicate ValidIx(data: JeopardyGameData, categoryIx: int, questionIx: int) {
    && 0 <= categoryIx < |data.categories|
    && 0 <= questionIx < |data.categories[categoryIx].questions|
  }

  // ---------------------------------------------------------------------------
  // qg_extras.go
  // ---------------------------------------------------------------------------

  /** The category index is checked first, then the question index. */
  function AssertQuestionIx(data: JeopardyGameData, categoryIx: int, questionIx: int): (r: Option<BoardError>)
    ensures r == None <==> ValidIx(data, categoryIx, questionIx)
    ensures !(0 <= categoryIx < |data.categories|) ==> r == Some(InvalidCategory(categoryIx))
    ensures 0 <= categoryIx < |data.categories| && !ValidIx(data, categoryIx, questionIx) ==>
      r == Some(InvalidQuestion(questionIx))
  {
    if 0 > categoryIx || categoryIx >= |data.categories| then Some(InvalidCategory(categoryIx))
    else if 0 > questionIx || questionIx >= |data.categories[categoryIx].questions| then Some(InvalidQuestion(questionIx))
    else None
  }

  function QuestionAt(data: JeopardyGameData, categoryIx: int, questionIx: int): (r: Result<(Category, Question), BoardError>)
    ensures r.Ok? <==> ValidIx(data, categoryIx, questionIx)
    ensures r.Ok? ==> r.value.0 == data.categories[categoryIx] && r.value.1 == r.value.0.questions[questionIx]
    ensures r.Err? ==> AssertQuestionIx(data, categoryIx, questionIx) == Some(r.error)
  {
    match AssertQuestionIx(data, categoryIx, questionIx)
    case Some(e) => Err(e)
    case None => Ok((data.categories[categoryIx], data.categories[categoryIx].questions[questionIx]))
  }

  /** `%d` formatting of an integer. */
  function Decimal(n: int): string {
    if n < 0 then "-" + Digits(-n) else Digits(n)
  }

  function Digits(n: nat): string
    decreases n
  {
    if n < 10 then ["0123456789"[n]] else Digits(n / 10) + ["0123456789"[n % 10]]
  }

  /** The text of an index error. */
  function ErrorMessage(e: BoardError): string {
    match e
    case InvalidCategory(ix) => "invalid category index: " + Decimal(ix)
    case InvalidQuestion(ix) => "invalid question index: " + Decimal(ix)
  }

  /** The points a question is worth: the multiplier times its 1-based row. */
  function QuestionPoints(data: JeopardyGameData, questionIx: int): int
    requires data.scoreMultiplier.Some?
  {
    data.scoreMultiplier.value * (questionIx + 1)
  }

  /** Lower rows are worth strictly more under a positive multiplier, the
      first row is worth the multiplier itself, and rows are evenly spaced. */
  lemma PointsIncreaseWithRow(data: JeopardyGameData, q1: int, q2: int)
    requires data.scoreMultiplier.Some? && data.scoreMultiplier.value > 0
    ensures q1 < q2 ==> QuestionPoints(data, q1) < QuestionPoints(data, q2)
    ensures QuestionPoints(data, 0) == data.scoreMultiplier.value
    ensures QuestionPoints(data, q1 + 1) - QuestionPoints(data, q1) == data.scoreMultiplier.value
  {
    if q1 < q2 {
      var m := data.scoreMultiplier.value;
      assert m * (q2 + 1) - m * (q1 + 1) == m * (q2 - q1);
    }
  }

  /** With the default multiplier the first two rows are worth 100 and 200. */
  lemma DefaultPoints(data: JeopardyGameData)
    requires data.scoreMultiplier == Some(DefaultMultiplier)
    ensures QuestionPoints(data, 0) == 100 && QuestionPoints(data, 1) == 200
  {
  }

  // ---------------------------------------------------------------------------
  // jeopardy.go: ValidateJeopardyGameData
  // ---------------------------------------------------------------------------

  /** Every category has as many questions as the first. */
  predicate Uniform(cats: seq<Category>) {
    forall i :: 0 <= i < |cats| ==> |cats[i].questions| == |cats[0].questions|
  }

  /** The loop over the categories: the first index from `i` on whose
      question count differs from `n`, or -1. */
  function FirstUneven(cats: seq<Category>, n: nat, i: nat): (k: int)
    requires i <= |cats|
    ensures k == -1 <==> forall j :: i <= j < |cats| ==> |cats[j].questions| == n
    ensures k != -1 ==>
      (i <= k < |cats| && |cats[k].questions| != n && forall j :: i <= j < k ==> |cats[j].questions| == n)
    decreases |cats| - i
  {
    if i == |cats| then -1
    else if |cats[i].questions| != n then i
    else FirstUneven(cats, n, i + 1)
  }

  /** The count checks shared by both versions of the validator. */
  function CheckCounts(data: JeopardyGameData): (r: Option<ValidationError>)
    ensures r == None <==> |data.categories| > 0 && Uniform(data.categories)
    ensures |data.categories| == 0 ==> r == Some(NoCategories)
    ensures r.Some? && r.value.UnevenCategory? ==>
      var k := r.value.number - 1;
      && 0 < k < |data.categories|
      && r.value.got == |data.categories[k].questions| != r.value.want == |data.categories[0].questions|
      && forall j :: 0 <= j < k ==> |data.categories[j].questions| == r.value.want
  {
    if |data.categories| == 0 then Some(NoCategories)
    else
      var n := |data.categories[0].questions|;
      var k := FirstUneven(data.categories, n, 0);
      if k == -1 then None
      else Some(UnevenCategory(k + 1, |data.categories[k].questions|, n))
  }

  /** ValidateJeopardyGameData as written: when no multiplier is given it
      writes the default through the nil pointer, which panics. */
  function ValidateAsWritten(data: JeopardyGameData): (r: Result<JeopardyGameData, ValidationError>)
    ensures CheckCounts(data).Some? ==> r == Err(CheckCounts(data).value)
    ensures CheckCounts(data).None? && data.scoreMultiplier.None? ==> r == Err(NilMultiplierWrite)
    ensures r.Ok? ==> r.value == data
  {
    match CheckCounts(data)
    case Some(e) => Err(e)
    case None => if data.scoreMultiplier.None? then Err(NilMultiplierWrite) else Ok(data)
  }

  /** A well-formed board without a multiplier makes the as-written
      validator panic instead of defaulting the multiplier. */
  lemma NilMultiplierPanics()
    ensures var data := JeopardyGameData([Category("c", [Question("q", "a")])], None);
      ValidateAsWritten(data) == Err(NilMultiplierWrite)
  {
    var data := JeopardyGameData([Category("c", [Question("q", "a")])], None);
    assert CheckCounts(data) == None;
  }

  /** ValidateJeopardyGameData as intended: a missing multiplier becomes the
      default. Accepted data is non-empty, uniform and has a multiplier. */
  function ValidateJeopardyGameData(data: JeopardyGameData): (r: Result<JeopardyGameData, ValidationError>)
    ensures r.Ok? <==> |data.categories| > 0 && Uniform(data.categories)
    ensures r.Err? ==> r.error != NilMultiplierWrite && r == Err(CheckCounts(data).value)
    ensures r.Ok? ==>
      && r.value.categories == data.categories
      && r.value.scoreMultiplier == Some(if data.scoreMultiplier.Some? then data.scoreMultiplier.value else DefaultMultiplier)
  {
    match CheckCounts(data)
    case Some(e) => Err(e)
    case None => Ok(data.(scoreMultiplier := Some(if data.scoreMultiplier.Some? then data.scoreMultiplier.value else DefaultMultiplier)))
  }

  /** The two validators agree whenever a multiplier is given. */
  lemma ValidatorsAgreeWithMultiplier(data: JeopardyGameData)
    requires data.scoreMultiplier.Some?
    ensures ValidateAsWritten(data) == ValidateJeopardyGameData(data)
  {
    if CheckCounts(data).None? {
      assert data.(scoreMultiplier := Some(data.scoreMultiplier.value)) == data;
    }
  }

  // ---------------------------------------------------------------------------
  // Board size
  // ---------------------------------------------------------------------------

  /** The number of questions on the board. The source's TotalQuestions is
      not part of this model; this is the count it is used for. */
  function TotalQuestions(cats: seq<Category>): nat
  {
    if cats == [] then 0 else |cats[0].questions| + TotalQuestions(cats[1..])
  }

  /** A uniform board of c categories with n questions each holds c * n. */
  lemma {:induction false} TotalOfUniform(cats: seq<Category>, n: nat)
    requires forall i :: 0 <= i < |cats| ==> |cats[i].questions| == n
    ensures TotalQuestions(cats) == |cats| * n
    decreases |cats|
  {
    if cats != [] {
      assert forall i :: 0 <= i < |cats[1..]| ==> cats[1..][i] == cats[i + 1];
      TotalOfUniform(cats[1..], n);
    }
  }

  /** The index pairs of one category row. */
  function Row(c: int, n: nat): set<(int, int)> {
    set q | 0 <= q < n :: (c, q)
  }

  lemma {:induction false} RowSize(c: int, n: nat)
    ensures |Row(c, n)| == n
    decreases n
  {
    if n > 0 {
      assert Row(c, n) == Row(c, n - 1) + {(c, n - 1)};
      RowSize(c, n - 1);
    }
  }

  /** The index pairs of `cats`, numbering the categories from `base`. */
  function PairsFrom(cats: seq<Category>, base: int): set<(int, int)>
    decreases |cats|
  {
    if cats == [] then {} else Row(base, |cats[0].questions|) + PairsFrom(cats[1..], base + 1)
  }

  /** The valid (category, question) pairs of the board. */
  function ValidPairs(data: JeopardyGameData): set<(int, int)> {
    PairsFrom(data.categories, 0)
  }

  lemma {:induction false} PairsFromMembership(cats: seq<Category>, base: int, p: (int, int))
    ensures p in PairsFrom(cats, base) <==>
      base <= p.0 < base + |cats| && 0 <= p.1 < |cats[p.0 - base].questions|
    decreases |cats|
  {
    if cats != [] {
      PairsFromMembership(cats[1..], base + 1, p);
      if base + 1 <= p.0 < base + |cats| {
        assert cats[1..][p.0 - base - 1] == cats[p.0 - base];
      }
    }
  }

  lemma {:induction false} PairsFromSize(cats: seq<Category>, base: int)
    ensures |PairsFrom(cats, base)| == TotalQuestions(cats)
    decreases |cats|
  {
    if cats != [] {
      PairsFromSize(cats[1..], base + 1);
      RowSize(base, |cats[0].questions|);
      forall p | p in Row(base, |cats[0].questions|)
        ensures p !in PairsFrom(cats[1..], base + 1)
      {
        PairsFromMembership(cats[1..], base + 1, p);
      }
      assert Row(base, |cats[0].questions|) !! PairsFrom(cats[1..], base + 1);
    }
  }

  /** ValidPairs holds exactly the indices QuestionAt accepts, and there are
      TotalQuestions of them. */
  lemma ValidPairsExact(data: JeopardyGameData)
    ensures forall c, q :: (c, q) in ValidPairs(data) <==> ValidIx(data, c, q)
    ensures |ValidPairs(data)| == TotalQuestions(data.categories)
  {
    forall c, q ensures (c, q) in ValidPairs(data) <==> ValidIx(data, c, q) {
      PairsFromMembership(data.categories, 0, (c, q));
    }
    PairsFromSize(data.categories, 0);
  }

  // ---------------------------------------------------------------------------
  // jeopardyGameInfo
  // ---------------------------------------------------------------------------

  /** Go's `int32(n)` conversion: two's-complement wrap-around. */
  function ToInt32(n: int): (r: int)
    ensures -0x8000_0000 <= r < 0x8000_0000
    ensures -0x8000_0000 <= n < 0x8000_0000 ==> r == n
  {
    var m := n % 0x1_0000_0000;
    if m >= 0x8000_0000 then m - 0x1_0000_0000 else m
  }

  /** The summary: every category name in board order, the first category's
      question count and the multiplier unchanged. The source indexes the
      first category and dereferences the multiplier unconditionally. */
  function GameInfo(data: JeopardyGameData): (info: JeopardyGameInfo)
    requires |data.categories| > 0 && data.scoreMultiplier.Some?
    ensures |info.categories| == |data.categories|
    ensures forall i :: 0 <= i < |data.categories| ==> info.categories[i] == data.categories[i].name
    ensures |data.categories[0].questions| < 0x8000_0000 ==> info.numQuestions == |data.categories[0].questions|
    ensures info.scoreMultiplier == data.scoreMultiplier.value
  {
    JeopardyGameInfo(
      seq(|data.categories|, i requires 0 <= i < |data.categories| => data.categories[i].name),
      ToInt32(|data.categories[0].questions|),
      data.scoreMultiplier.value)
  }

  /** The summary of a board the validator accepts describes the board a
      client can address: its categories times its question count is the
      number of questions, and a (category, question) pair inside those
      bounds is exactly one QuestionAt accepts. */
  lemma GameInfoDescribesBoard(data: JeopardyGameData)
    requires ValidateJeopardyGameData(data).Ok?
    requires |data.categories[0].questions| < 0x8000_0000
    ensures var v := ValidateJeopardyGameData(data).value;
      var info := GameInfo(v);
      && |info.categories| * info.numQuestions == TotalQuestions(data.categories)
      && (forall c, q :: (0 <= c < |info.categories| && 0 <= q < info.numQuestions) <==> QuestionAt(v, c, q).Ok?)
      && info.scoreMultiplier == v.scoreMultiplier.value
  {
    var v := ValidateJeopardyGameData(data).value;
    var n := |data.categories[0].questions|;
    TotalOfUniform(data.categories, n);
  }

  /** The two-category, three-question board of the end-to-end test. */
  function LoremBoard(): JeopardyGameData {
    var qs1 := [Question("1", "a"), Question("2", "b"), Question("3", "c")];
    var qs2 := [Question("4", "d"), Question("5", "e"), Question("6", "f")];
    JeopardyGameData([Category("Lorem Ipsum 1", qs1), Category("Lorem Ipsum 2", qs2)], Some(100))
  }

  /** The summary and points the end-to-end test expects for that board. */
  lemma LoremBoardSummary()
    ensures ValidateJeopardyGameData(LoremBoard()) == Ok(LoremBoard())
    ensures GameInfo(LoremBoard()) == JeopardyGameInfo(["Lorem Ipsum 1", "Lorem Ipsum 2"], 3, 100)
    ensures QuestionAt(LoremBoard(), 0, 0).Ok? && QuestionAt(LoremBoard(), 0, 0).value.1.question == "1"
    ensures QuestionAt(LoremBoard(), 1, 1).Ok? && QuestionAt(LoremBoard(), 1, 1).value.1.question == "5"
    ensures QuestionPoints(LoremBoard(), 0) == 100 && QuestionPoints(LoremBoard(), 1) == 200
    ensures TotalQuestions(LoremBoard().categories) == 6
  {
    var info := GameInfo(LoremBoard());
    assert info.categories == ["Lorem Ipsum 1", "Lorem Ipsum 2"];
    assert LoremBoard().(scoreMultiplier := Some(100)) == LoremBoard();
    TotalOfUniform(LoremBoard().categories, 3);
  }
}
