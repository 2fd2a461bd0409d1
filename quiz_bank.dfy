/** The quiz-bank loader `load_quiz_data`: a line-oriented text in which
    `[Major > Middle > Minor]` headers set the unit, `#text` lines add a learning
    note to the current unit, and `english|korean` lines are questions. */
module QuizBank {
  import opened Text

  /** The wildcard unit name ("all"). */
  const Whole: string := "전체"
  /** The unit name used before the first header ("other"). */
  const Misc: string := "기타"
  /** What separates two notes of the same unit. */
  const NoteSeparator: string := "\n\n"

  /** A question of the bank; (key, eng) is its identity in the progress tables. */
  datatype Question = Question(major: string, middle: string, minor: string,
                               eng: string, kor: string, key: string)

  /** The unit named by the last header read. */
  datatype Context = Context(major: string, middle: string, minor: string) {
    function Key(): string {
      major + "-" + middle + "-" + minor
    }
  }

  /** The unit in force before any header: "기타-기타-전체". */
  const Initial: Context := Context(Misc, Misc, Whole)

  /** A question of the bank, tagged with its unit. */
  function Tag(c: Context, eng: string, kor: string): Question {
    Question(c.major, c.middle, c.minor, eng, kor, c.Key())
  }

  /** What one line of the bank is, after `line.strip()`. `Unpackable` is an entry
      line with more than one '|', on which `eng, kor = line.split("|")` raises. */
  datatype Line =
    | Blank
    | Header(context: Context)
    | Note(text: string)
    | Entry(eng: string, kor: string)
    | Unpackable
    | Other

  /** The inside of a header: parts split on '>' and stripped; a missing middle or
      minor part is the wildcard. */
  function ParseHeader(inner: string): Context {
    var parts := Split(inner, '>');
    Context(Strip(parts[0]),
            if |parts| > 1 then Strip(parts[1]) else Whole,
            if |parts| > 2 then Strip(parts[2]) else Whole)
  }

  function Classify(raw: string): Line {
    var line := Strip(raw);
    if line == [] then Blank
    else if line[0] == '[' && line[|line| - 1] == ']' then Header(ParseHeader(line[1..|line| - 1]))
    else if line[0] == '#' then Note(Strip(line[1..]))
    else if '|' in line then
      var parts := Split(line, '|');
      if |parts| == 2 then Entry(Strip(parts[0]), Strip(parts[1])) else Unpackable
    else Other
  }

  /** The loaded bank: the questions in file order and the notes per unit key. */
  datatype Bank = Bank(questions: seq<Question>, notes: map<string, string>)

  datatype LoadError = TooManyFields(line: nat)

  /** The loader's state after a prefix of the lines, or the error that stopped it. */
  datatype Scanned = Scanning(context: Context, bank: Bank) | Stopped(error: LoadError)

  datatype Loaded = Ok(bank: Bank) | Err(error: LoadError)

  /** Adds a note for `key`, after a blank-line separator when the key has one already. */
  function AddNote(notes: map<string, string>, key: string, text: string): (r: map<string, string>)
    ensures r.Keys == notes.Keys + {key}
    ensures forall k :: k in notes && k != key ==> r[k] == notes[k]
    ensures r[key] == if key in notes then notes[key] + NoteSeparator + text else text
  {
    if key in notes then notes[key := notes[key] + NoteSeparator + text]
    else notes[key := text]
  }

  /** The effect of line `index` on the loader's state. */
  function Apply(s: Scanned, line: Line, index: nat): Scanned {
    match s
    case Stopped(_) => s
    case Scanning(c, b) =>
      match line
      case Blank => s
      case Other => s
      case Header(h) => Scanning(h, b)
      case Note(t) => Scanning(c, b.(notes := AddNote(b.notes, c.Key(), t)))
      case Entry(e, k) => Scanning(c, b.(questions := b.questions + [Tag(c, e, k)]))
      case Unpackable => Stopped(TooManyFields(index))
  }

  /** What each line of the bank is; every line is classified on its own. */
  function Kinds(lines: seq<string>): (kinds: seq<Line>)
    ensures |kinds| == |lines|
  {
    if lines == [] then [] else [Classify(lines[0])] + Kinds(lines[1..])
  }

  lemma {:induction false} KindAt(lines: seq<string>, i: nat)
    requires i < |lines|
    ensures Kinds(lines)[i] == Classify(lines[i])
  {
    if i > 0 {
      KindAt(lines[1..], i - 1);
    }
  }

  /** The loader's state after the first `n` kinds. */
  function Scan(kinds: seq<Line>, n: nat): Scanned
    requires n <= |kinds|
  {
    if n == 0 then Scanning(Initial, Bank([], map[]))
    else Apply(Scan(kinds, n - 1), kinds[n - 1], n - 1)
  }

  /** `load_quiz_data` on the lines of the bank file. */
  function Load(lines: seq<string>): Loaded {
    match Scan(Kinds(lines), |lines|)
    case Scanning(_, b) => Ok(b)
    case Stopped(e) => Err(e)
  }

  /** The parsing loop of `load_quiz_data`. */
  method LoadQuizData(lines: seq<string>) returns (result: Loaded)
    ensures result == Load(lines)
  {
    var questions: seq<Question> := [];
    var notes: map<string, string> := map[];
    var major, middle, minor := Misc, Misc, Whole;
    var currentKey := Misc + "-" + Misc + "-" + Whole;
    ghost var kinds := Kinds(lines);
    var i := 0;
    while i < |lines|
      invariant i <= |lines|
      invariant currentKey == Context(major, middle, minor).Key()
      invariant Scan(kinds, i) == Scanning(Context(major, middle, minor), Bank(questions, notes))
    {
      var ok;
      ok, major, middle, minor, currentKey, questions, notes :=
        ReadLine(lines[i], lines, i, major, middle, minor, currentKey, questions, notes);
      if !ok {
        ScanStopsForGood(kinds, i + 1, |lines|);
        return Err(TooManyFields(i));
      }
      i := i + 1;
    }
    return Ok(Bank(questions, notes));
  }

  /** The body of the parsing loop, for line `index`; `ok` is false when the line is an
      entry that `eng, kor = line.split("|")` cannot unpack. */
  method ReadLine(raw: string, ghost lines: seq<string>, ghost index: nat, major: string, middle: string, minor: string,
                  currentKey: string, questions: seq<Question>, notes: map<string, string>)
    returns (ok: bool, major': string, middle': string, minor': string, currentKey': string,
             questions': seq<Question>, notes': map<string, string>)
    requires index < |lines| && raw == lines[index]
    requires currentKey == Context(major, middle, minor).Key()
    ensures currentKey' == Context(major', middle', minor').Key()
    ensures Apply(Scanning(Context(major, middle, minor), Bank(questions, notes)), Kinds(lines)[index], index) ==
            if ok then Scanning(Context(major', middle', minor'), Bank(questions', notes'))
            else Stopped(TooManyFields(index))
  {
    KindAt(lines, index);
    ok := true;
    major', middle', minor', currentKey', questions', notes' :=
      major, middle, minor, currentKey, questions, notes;
    var line := Strip(raw);
    if line == [] {
    } else if line[0] == '[' && line[|line| - 1] == ']' {
      var parts := Split(line[1..|line| - 1], '>');
      major' := Strip(parts[0]);
      middle' := if |parts| > 1 then Strip(parts[1]) else Whole;
      minor' := if |parts| > 2 then Strip(parts[2]) else Whole;
      currentKey' := major' + "-" + middle' + "-" + minor';
    } else if line[0] == '#' {
      var text := Strip(line[1..]);
      if currentKey in notes {
        notes' := notes[currentKey := notes[currentKey] + NoteSeparator + text];
      } else {
        notes' := notes[currentKey := text];
      }
    } else if '|' in line {
      var parts := Split(line, '|');
      if |parts| != 2 {
        ok := false;
        return;
      }
      questions' := questions + [Question(major, middle, minor, Strip(parts[0]), Strip(parts[1]), currentKey)];
    }
  }

  /** Once a line has stopped the loader, later kinds change nothing. */
  lemma {:induction false} ScanStopsForGood(kinds: seq<Line>, m: nat, n: nat)
    requires m <= n <= |kinds|
    requires Scan(kinds, m).Stopped?
    ensures Scan(kinds, n) == Scan(kinds, m)
  {
    if n > m {
      ScanStopsForGood(kinds, m, n - 1);
    }
  }

  // ---------------------------------------------------------------------------
  // A reference description of the loaded bank, line by line.

  /** The unit in force after the first `n` kinds: the last header among them,
      or `Initial` when there is none. */
  function ContextAt(kinds: seq<Line>, n: nat): Context
    requires n <= |kinds|
  {
    if n == 0 then Initial
    else match kinds[n - 1]
      case Header(h) => h
      case _ => ContextAt(kinds, n - 1)
  }

  /** One question for each entry line among the first `n`, tagged with the unit in
      force at that line, in file order. */
  function RecordsUpTo(kinds: seq<Line>, n: nat): seq<Question>
    requires n <= |kinds|
  {
    if n == 0 then []
    else RecordsUpTo(kinds, n - 1) +
         match kinds[n - 1]
         case Entry(e, k) => [Tag(ContextAt(kinds, n - 1), e, k)]
         case _ => []
  }

  /** The texts of the note kinds among the first `n` that fall under unit `key`. */
  function NotesFor(kinds: seq<Line>, n: nat, key: string): seq<string>
    requires n <= |kinds|
  {
    if n == 0 then []
    else NotesFor(kinds, n - 1, key) +
         match kinds[n - 1]
         case Note(t) => if ContextAt(kinds, n - 1).Key() == key then [t] else []
         case _ => []
  }

  /** Texts joined with the note separator. */
  function JoinNotes(texts: seq<string>): string
    requires |texts| >= 1
  {
    if |texts| == 1 then texts[0]
    else JoinNotes(texts[..|texts| - 1]) + NoteSeparator + texts[|texts| - 1]
  }

  predicate Unpackables(kinds: seq<Line>, n: nat)
    requires n <= |kinds|
  {
    exists j :: 0 <= j < n && kinds[j].Unpackable?
  }

  /** The loader stops exactly when an entry line holds more than one '|', and it
      reports the first such line. */
  lemma {:induction false} ScanStops(kinds: seq<Line>, n: nat)
    requires n <= |kinds|
    ensures Scan(kinds, n).Stopped? <==> Unpackables(kinds, n)
    ensures Scan(kinds, n).Stopped? ==>
              var j := Scan(kinds, n).error.line;
              j < n && kinds[j].Unpackable? &&
              forall k :: 0 <= k < j ==> !kinds[k].Unpackable?
  {
    if n > 0 {
      ScanStops(kinds, n - 1);
      if Unpackables(kinds, n) && !Unpackables(kinds, n - 1) {
        assert kinds[n - 1].Unpackable?;
      }
    }
  }

  /** While the loader runs, its unit is the last header's, its questions are one per
      entry line, and its notes for each key are the note kinds under that key, joined. */
  lemma {:induction false} ScanMeaning(kinds: seq<Line>, n: nat)
    requires n <= |kinds|
    requires Scan(kinds, n).Scanning?
    ensures Scan(kinds, n).context == ContextAt(kinds, n)
    ensures Scan(kinds, n).bank.questions == RecordsUpTo(kinds, n)
    ensures forall key :: key in Scan(kinds, n).bank.notes <==> NotesFor(kinds, n, key) != []
    ensures forall key :: key in Scan(kinds, n).bank.notes ==>
              Scan(kinds, n).bank.notes[key] == JoinNotes(NotesFor(kinds, n, key))
  {
    if n > 0 {
      assert Scan(kinds, n - 1).Scanning?;
      ScanMeaning(kinds, n - 1);
      var notes := Scan(kinds, n).bank.notes;
      forall key | key in notes
        ensures notes[key] == JoinNotes(NotesFor(kinds, n, key))
      {
        var texts := NotesFor(kinds, n, key);
        if texts != NotesFor(kinds, n - 1, key) {
          assert texts[..|texts| - 1] == NotesFor(kinds, n - 1, key);
        }
      }
    }
  }

  /** The loaded bank, described line by line. */
  lemma LoadMeaning(lines: seq<string>)
    ensures Load(lines).Err? <==> Unpackables(Kinds(lines), |lines|)
    ensures Load(lines).Ok? ==>
              Load(lines).bank.questions == RecordsUpTo(Kinds(lines), |lines|) &&
              (forall key :: key in Load(lines).bank.notes <==> NotesFor(Kinds(lines), |lines|, key) != []) &&
              (forall key :: key in Load(lines).bank.notes ==>
                 Load(lines).bank.notes[key] == JoinNotes(NotesFor(Kinds(lines), |lines|, key)))
  {
    ScanStops(Kinds(lines), |lines|);
    if Load(lines).Ok? {
      ScanMeaning(Kinds(lines), |lines|);
    }
  }

  /** Blank and whitespace-only lines are exactly the ones skipped as blank. */
  lemma BlankLines(raw: string)
    ensures Classify(raw) == Blank <==> forall k :: 0 <= k < |raw| ==> IsSpace(raw[k])
  {
    StripEmptyIff(raw);
  }

  /** Before the first header, the unit is "기타-기타-전체". */
  lemma {:induction false} ContextBeforeHeaders(kinds: seq<Line>, n: nat)
    requires n <= |kinds|
    requires forall j :: 0 <= j < n ==> !kinds[j].Header?
    ensures ContextAt(kinds, n) == Initial
    ensures Initial.Key() == "기타-기타-전체"
  {
    if n > 0 {
      ContextBeforeHeaders(kinds, n - 1);
    }
  }

  /** A header `[a>b>c]` names the unit of its stripped parts; with fewer parts the
      missing middle and minor are the wildcard. */
  lemma HeaderParts(a: string, b: string, c: string)
    requires '>' !in a && '>' !in b && '>' !in c
    ensures ParseHeader(a + ">" + b + ">" + c) == Context(Strip(a), Strip(b), Strip(c))
    ensures ParseHeader(a + ">" + b) == Context(Strip(a), Strip(b), Whole)
    ensures ParseHeader(a) == Context(Strip(a), Whole, Whole)
  {
    SplitJoin([a, b, c], '>');
    assert [a, b, c][1..] == [b, c] && [b, c][1..] == [c];
    assert Join([b, c], '>') == b + ">" + c;
    assert Join([a, b, c], '>') == a + ">" + (b + ">" + c);
    assert a + ">" + (b + ">" + c) == a + ">" + b + ">" + c;
    SplitJoin([a, b], '>');
    assert [a, b][1..] == [b];
    assert Join([a, b], '>') == a + ">" + b;
    SplitJoin([a], '>');
  }

  /** A stripped line between brackets is a header. */
  lemma HeaderLine(raw: string)
    requires |raw| >= 2 && Strip(raw) == raw && raw[0] == '[' && raw[|raw| - 1] == ']'
    ensures Classify(raw) == Header(ParseHeader(raw[1..|raw| - 1]))
  {
  }

  /** A stripped line that starts with '#' is a note. */
  lemma NoteLine(raw: string)
    requires raw != [] && Strip(raw) == raw && raw[0] == '#'
    ensures Classify(raw) == Note(Strip(raw[1..]))
  {
  }

  /** A stripped line that is neither a header nor a note and splits on '|' into
      exactly two pieces is an entry. */
  lemma EntryLine(raw: string, e: string, k: string)
    requires raw != [] && Strip(raw) == raw && !(raw[0] == '[' && raw[|raw| - 1] == ']') && raw[0] != '#'
    requires Split(raw, '|') == [e, k]
    ensures Classify(raw) == Entry(Strip(e), Strip(k))
  {
    SplitPieces(raw, '|');
    assert '|' in raw;
  }

  // The example lemmas below take their line as a parameter fixed by `requires`
  // rather than as a literal argument: the verifier unfolds functions applied to
  // literals eagerly, and a literal line makes `Classify` expand far too much.

  lemma SmallBankHeader(line: string)
    requires line == "[A>B>C]"
    ensures Classify(line) == Header(Context("A", "B", "C"))
  {
    StripUnpadded(line);
    HeaderLine(line);
    HeaderABC(line[1..|line| - 1]);
  }

  lemma HeaderABC(inner: string)
    requires inner == "A>B>C"
    ensures ParseHeader(inner) == Context("A", "B", "C")
  {
    assert inner == "A" + ">" + "B" + ">" + "C";
    HeaderParts("A", "B", "C");
    StripUnpadded("A");
    StripUnpadded("B");
    StripUnpadded("C");
  }

  lemma SmallBankNote(line: string)
    requires line == "#note"
    ensures Classify(line) == Note("note")
  {
    StripUnpadded(line);
    NoteLine(line);
    assert line[1..] == "note";
    StripUnpadded("note");
  }

  lemma SmallBankEntry(line: string)
    requires line == "hello|안녕"
    ensures Classify(line) == Entry("hello", "안녕")
  {
    StripUnpadded(line);
    EntryPieces(line);
    EntryLine(line, "hello", "안녕");
    StripUnpadded("hello");
    StripUnpadded("안녕");
  }

  lemma EntryPieces(line: string)
    requires line == "hello|안녕"
    ensures Split(line, '|') == ["hello", "안녕"]
  {
    SplitJoin(["hello", "안녕"], '|');
    assert ["hello", "안녕"][1..] == ["안녕"];
    assert Join(["hello", "안녕"], '|') == line;
  }

  /** A header naming unit A-B-C, a note, then an entry: one question and one note. */
  lemma HeaderNoteEntry(kinds: seq<Line>)
    requires kinds == [Header(Context("A", "B", "C")), Note("note"), Entry("hello", "안녕")]
    ensures Scan(kinds, 3) ==
            Scanning(Context("A", "B", "C"),
                     Bank([Question("A", "B", "C", "hello", "안녕", "A-B-C")], map["A-B-C" := "note"]))
  {
    var abc := Context("A", "B", "C");
    assert abc.Key() == "A-B-C";
    assert Scan(kinds, 1) == Scanning(abc, Bank([], map[]));
    assert Scan(kinds, 2) == Scanning(abc, Bank([], map["A-B-C" := "note"]));
  }

  /** Three lines classified as header A-B-C, a note and an entry load as one question
      and one note. */
  lemma ThreeLines(lines: seq<string>)
    requires |lines| == 3
    requires Classify(lines[0]) == Header(Context("A", "B", "C"))
    requires Classify(lines[1]) == Note("note")
    requires Classify(lines[2]) == Entry("hello", "안녕")
    ensures Load(lines) ==
            Ok(Bank([Question("A", "B", "C", "hello", "안녕", "A-B-C")], map["A-B-C" := "note"]))
  {
    KindsOfThree(lines, Header(Context("A", "B", "C")), Note("note"), Entry("hello", "안녕"));
    HeaderNoteEntry(Kinds(lines));
  }

  lemma KindsOfThree(lines: seq<string>, x: Line, y: Line, z: Line)
    requires |lines| == 3
    requires Classify(lines[0]) == x && Classify(lines[1]) == y && Classify(lines[2]) == z
    ensures Kinds(lines) == [x, y, z]
  {
    KindAt(lines, 0);
    KindAt(lines, 1);
    KindAt(lines, 2);
  }

  /** The bank `[A>B>C]`, `#note`, `hello|안녕` holds one question of unit "A-B-C" and
      the note "note" for that unit. */
  lemma SmallBank(lines: seq<string>)
    requires lines == ["[A>B>C]", "#note", "hello|안녕"]
    ensures Load(lines) ==
            Ok(Bank([Question("A", "B", "C", "hello", "안녕", "A-B-C")], map["A-B-C" := "note"]))
  {
    SmallBankHeader(lines[0]);
    SmallBankNote(lines[1]);
    SmallBankEntry(lines[2]);
    ThreeLines(lines);
  }
}
