/** Printing and parsing counter paths undo each other on exactly the texts described here. */
module CounterPathRoundTrip {
  import opened Errors
  import opened CounterPath

  lemma {:induction false} LevelOfSlice(s: string, a: nat, b: nat, i: nat)
    requires a + i <= b <= |s|
    ensures Level(s[a..b], i) == Level(s, a + i) - Level(s, b)
    decreases b - a - i
  {
    if a + i < b {
      LevelOfSlice(s, a, b, i + 1);
    }
  }

  lemma LevelsOfSlice(s: string, a: nat, b: nat)
    requires a <= b <= |s|
    ensures forall j :: a <= j <= b ==> Level(s, j) == Level(s[a..b], j - a) + Level(s, b)
  {
    forall j | a <= j <= b ensures Level(s, j) == Level(s[a..b], j - a) + Level(s, b) {
      LevelOfSlice(s, a, b, j - a);
    }
  }

  // ----- What the parser accepts

  /** Text cut out between two positions at level zero, with no separator between them, is neutral. */
  lemma SliceIsNeutral(s: string, a: nat, b: nat)
    requires a <= b <= |s| && Level(s, a) == 0 && Level(s, b) == 0
    requires NoneAtLevelZero(s, '\\', a, b)
    ensures Neutral(s[a..b])
    ensures NoneAtLevelZero(s, ')', a, b) ==> Inert(s[a..b])
  {
    LevelsOfSlice(s, a, b);
    var t := s[a..b];
    forall i, c | 0 <= i < |t| ensures AtLevelZero(t, i, c) ==> AtLevelZero(s, a + i, c) {
      LevelOfSlice(s, a, b, i + 1);
    }
    LevelOfSlice(s, a, b, 0);
  }

  lemma SliceIsNested(s: string, a: nat, b: nat)
    requires a <= b <= |s| && Level(s, b) == 1 && Level(s, a) == 1
    requires Inside(s, a, b)
    ensures Nested(s[a..b])
  {
    LevelsOfSlice(s, a, b);
    LevelOfSlice(s, a, b, 0);
    forall i | 0 <= i <= b - a ensures Level(s[a..b], i) >= 0 {
      LevelOfSlice(s, a, b, i);
    }
  }

  /** The parts of an accepted path; `bracketed` says whether the path showed a bracketed instance. */
  ghost predicate Accepted(p: Parts, bracketed: bool) {
    && Neutral(p.counter) && Neutral(p.objectName) && Neutral(p.computer)
    && if bracketed then Nested(p.instance)
       else p.instance == "" && Inert(p.objectName) && Inert(p.computer)
  }

  /** The same for the texts that the separators delimit ... */
  lemma SeparatorCuts(path: string, b: Borders)
    requires b.leftObject > -1 && Ordered(path, b) && SeparatorsMean(path, 0, b)
    ensures Neutral(path[b.leftCounter + 1..])
    ensures Neutral(path[b.leftObject + 1..b.leftCounter])
    ensures NoneAtLevelZero(path, ')', 0, b.leftCounter) ==> Inert(path[b.leftObject + 1..b.leftCounter])
    ensures b.leftComputer > -1 ==> Neutral(path[b.leftComputer + 1..b.leftObject])
    ensures b.leftComputer > -1 && NoneAtLevelZero(path, ')', 0, b.leftCounter) ==>
              Inert(path[b.leftComputer + 1..b.leftObject])
  {
    assert path[b.leftCounter + 1..] == path[b.leftCounter + 1..|path|];
    SliceIsNeutral(path, b.leftCounter + 1, |path|);
    SliceIsNeutral(path, b.leftObject + 1, b.leftCounter);
    if b.leftComputer > -1 {
      SliceIsNeutral(path, b.leftComputer + 1, b.leftObject);
    }
  }

  /** ... and for those that the instance borders delimit. */
  lemma InstanceCuts(path: string, b: Borders)
    requires b.leftObject > -1 && b.leftInstance > -1 && Ordered(path, b) && InstanceMeans(path, 0, b)
    requires AtLevelZero(path, b.leftObject, '\\') && NoneAtLevelZero(path, '\\', b.leftObject + 1, b.leftCounter)
    ensures Neutral(path[b.leftObject + 1..b.leftInstance])
    ensures Nested(path[b.leftInstance + 1..b.rightInstance])
  {
    SliceIsNeutral(path, b.leftObject + 1, b.leftInstance);
    SliceIsNested(path, b.leftInstance + 1, b.rightInstance);
  }

  /** The parts of an accepted path are the slices between its borders. */
  lemma PartsAreSlices(path: string)
    requires Parse(path).Ok?
    ensures var b := Scan(path, 0);
            && Ordered(path, b) && b.leftObject > -1 && (b.leftInstance > -1 <==> b.rightInstance > -1)
            && Parse(path).value ==
               Parts(if b.leftComputer > -1 then path[b.leftComputer + 1..b.leftObject] else "",
                     path[b.leftObject + 1..if b.leftInstance == -1 then b.leftCounter else b.leftInstance],
                     if b.leftInstance > -1 then path[b.leftInstance + 1..b.rightInstance] else "",
                     path[b.leftCounter + 1..])
  {
    BordersAreOrdered(path);
  }

  lemma EmptyIsInert()
    ensures Inert("") && Neutral("")
  {
  }

  lemma AcceptedCounter(path: string)
    requires Parse(path).Ok?
    ensures Neutral(Parse(path).value.counter)
  {
    PartsAreSlices(path);
    ScanIsMeaningful(path, 0);
    SeparatorCuts(path, Scan(path, 0));
  }

  lemma AcceptedComputer(path: string)
    requires Parse(path).Ok?
    ensures Neutral(Parse(path).value.computer)
    ensures !(Scan(path, 0).leftInstance > -1) ==> Inert(Parse(path).value.computer)
  {
    PartsAreSlices(path);
    if Scan(path, 0).leftComputer > -1 {
      ScanIsMeaningful(path, 0);
      SeparatorCuts(path, Scan(path, 0));
    } else {
      EmptyIsInert();
    }
  }

  lemma AcceptedObject(path: string)
    requires Parse(path).Ok?
    ensures Neutral(Parse(path).value.objectName)
    ensures !(Scan(path, 0).leftInstance > -1) ==> Inert(Parse(path).value.objectName)
  {
    PartsAreSlices(path);
    ScanIsMeaningful(path, 0);
    if Scan(path, 0).leftInstance > -1 {
      InstanceCuts(path, Scan(path, 0));
    } else {
      SeparatorCuts(path, Scan(path, 0));
    }
  }

  lemma AcceptedInstance(path: string)
    requires Parse(path).Ok?
    ensures if Scan(path, 0).leftInstance > -1 then Nested(Parse(path).value.instance)
            else Parse(path).value.instance == ""
  {
    PartsAreSlices(path);
    if Scan(path, 0).leftInstance > -1 {
      ScanIsMeaningful(path, 0);
      InstanceCuts(path, Scan(path, 0));
    }
  }

  /** Every accepted path splits into neutral texts around a properly nested instance. */
  lemma AcceptedPartsAreWellFormed(path: string)
    requires Parse(path).Ok?
    ensures Accepted(Parse(path).value, Scan(path, 0).leftInstance > -1)
  {
    AcceptedCounter(path);
    AcceptedComputer(path);
    AcceptedObject(path);
    AcceptedInstance(path);
  }

  // ----- What the parser makes of a printed path

  /** A stretch of text that offers the scanner no border changes nothing but the level. */
  lemma {:induction false} QuietStretch(path: string, lo: nat, hi: nat, b: Borders)
    requires lo <= hi <= |path| && Scan(path, hi) == b
    requires NoneAtLevelZero(path, '\\', lo, hi)
    requires b.leftCounter == -1 || b.rightInstance != -1 || NoneAtLevelZero(path, ')', lo, hi)
    requires b.leftCounter == -1 || b.leftInstance != -1 || b.leftObject != -1 ||
             forall j :: lo <= j < hi && path[j] == '(' ==> Level(path, j) != 0
    ensures Scan(path, lo) == b.(level := Level(path, lo))
    decreases hi - lo
  {
    ScanIsMeaningful(path, hi);
    if lo < hi {
      QuietStretch(path, lo + 1, hi, b);
      assert !AtLevelZero(path, lo, '\\');
      assert AtLevelZero(path, lo, ')') <==> path[lo] == ')' && Level(path, lo + 1) == 0;
    }
  }

  lemma {:induction false} InertStaysBelowZero(s: string, i: nat)
    requires i <= |s| && NoneAtLevelZero(s, ')', 0, |s|)
    ensures Level(s, i) <= 0
    decreases |s| - i
  {
    if i < |s| {
      InertStaysBelowZero(s, i + 1);
      assert !AtLevelZero(s, i, ')');
    }
  }

  /** Characters outside brackets in a slice are outside brackets in the whole text. */
  lemma SliceAtLevelZero(s: string, a: nat, b: nat, c: char)
    requires a <= b <= |s| && Level(s, b) == 0 && NoneAtLevelZero(s[a..b], c, 0, b - a)
    ensures NoneAtLevelZero(s, c, a, b)
  {
    forall j | a <= j < b ensures !AtLevelZero(s, j, c) {
      LevelOfSlice(s, a, b, j - a + 1);
      assert !AtLevelZero(s[a..b], j - a, c);
    }
  }

  /** Neutral text in front of a position outside brackets ends outside brackets and shows no separator. */
  lemma NeutralCut(s: string, a: nat, b: nat)
    requires a <= b <= |s| && Level(s, b) == 0 && Neutral(s[a..b])
    ensures Level(s, a) == 0 && NoneAtLevelZero(s, '\\', a, b)
  {
    LevelOfSlice(s, a, b, 0);
    SliceAtLevelZero(s, a, b, '\\');
  }

  lemma AfterCounter(path: string, sep: nat)
    requires sep < |path| && path[sep] == '\\' && Neutral(path[sep + 1..])
    ensures Scan(path, sep) == NO_BORDERS.(leftCounter := sep)
  {
    assert path[sep + 1..] == path[sep + 1..|path|];
    NeutralCut(path, sep + 1, |path|);
    QuietStretch(path, sep + 1, |path|, NO_BORDERS);
  }

  lemma AfterInstance(path: string, open: nat, close: nat, sep: nat)
    requires open < close && close + 1 == sep < |path| && path[open] == '(' && path[close] == ')'
    requires Nested(path[open + 1..close])
    requires Scan(path, sep) == NO_BORDERS.(leftCounter := sep)
    ensures Scan(path, open) == Borders(-1, -1, open, open, close, sep, 0)
  {
    ScanIsMeaningful(path, sep);
    var b := Scan(path, close);
    assert b == NO_BORDERS.(leftCounter := sep, rightInstance := close, level := 1);
    LevelsOfSlice(path, open + 1, close);
    assert Level(path, close) == 1;
    forall j | open < j <= close ensures Level(path, j) >= 1 {
      LevelOfSlice(path, open + 1, close, j - open - 1);
    }
    LevelOfSlice(path, open + 1, close, 0);
    QuietStretch(path, open + 1, close, b);
  }

  /** Neutral text in front of the scanned part, closed on the left by a separator. */
  lemma AfterText(path: string, sep: nat, hi: nat, b: Borders)
    requires sep < hi <= |path| && path[sep] == '\\' && Scan(path, hi) == b && b.level == 0
    requires Neutral(path[sep + 1..hi])
    requires (b.leftInstance > -1 && b.rightInstance > -1) || Inert(path[sep + 1..hi])
    ensures Scan(path, sep) == ScanChar(b, '\\', sep)
  {
    ScanIsMeaningful(path, hi);
    var s := path[sep + 1..hi];
    NeutralCut(path, sep + 1, hi);
    if Inert(s) {
      SliceAtLevelZero(path, sep + 1, hi, ')');
      forall j | sep < j < hi && path[j] == '(' ensures Level(path, j) != 0 {
        LevelOfSlice(path, sep + 1, hi, j - sep);
        InertStaysBelowZero(s, j - sep);
      }
    }
    QuietStretch(path, sep + 1, hi, b);
  }

  /** Parts that survive being printed and parsed again. */
  ghost predicate Printable(computer: string, objectName: string, instance: string, counter: string) {
    && Neutral(counter) && Neutral(objectName) && Neutral(computer)
    && if instance == EMPTY_INSTANCE then Inert(objectName) && Inert(computer) else Nested(instance)
  }

  /** The printer's abbreviations: a local computer and the no-instance marker leave no trace. */
  function Shown(computer: string, objectName: string, instance: string, counter: string): Parts {
    Parts(if computer == "localhost" then "" else computer, objectName,
          if instance == EMPTY_INSTANCE then "" else instance, counter)
  }

  /** Where the object starts in a path printed for this computer. */
  function Lead(computer: string): nat {
    if computer == "" then 0 else 2 + |computer|
  }

  /** Where the pieces of a printed path stand. */
  ghost predicate Layout(path: string, computer: string, objectName: string, instance: string, counter: string) {
    var lead := Lead(computer);
    var ro := lead + 1 + |objectName|;
    var sep := |path| - |counter| - 1;
    && sep == (if instance == EMPTY_INSTANCE then ro else ro + |instance| + 2)
    && (lead > 0 ==> path[0] == '\\' && path[1] == '\\' && path[2..lead] == computer)
    && path[lead] == '\\' && path[lead + 1..ro] == objectName
    && (instance != EMPTY_INSTANCE ==> path[ro] == '(' && path[sep - 1] == ')' && path[ro + 1..sep - 1] == instance)
    && path[sep] == '\\' && path[sep + 1..] == counter
  }

  lemma LocalLayout(objectName: string, instance: string, counter: string)
    ensures Layout(FormatPath("", objectName, instance, counter), "", objectName, instance, counter)
  {
    var path := FormatPath("", objectName, instance, counter);
    var ro := 1 + |objectName|;
    if instance == EMPTY_INSTANCE {
      assert path[ro + 1..] == counter;
    } else {
      assert path[ro + |instance| + 3..] == counter;
    }
  }

  lemma RemoteLayout(local: string, computer: string, objectName: string, instance: string, counter: string)
    requires Layout(local, "", objectName, instance, counter) && computer != ""
    ensures Layout("\\\\" + computer + local, computer, objectName, instance, counter)
  {
    var pre := "\\\\" + computer;
    var path := pre + local;
    var ro, sep := 1 + |objectName|, |local| - |counter| - 1;
    assert path[|pre| + 1..|pre| + ro] == local[1..ro];
    assert path[|pre| + sep + 1..] == local[sep + 1..];
    if instance != EMPTY_INSTANCE {
      assert path[|pre| + ro + 1..|pre| + sep - 1] == local[ro + 1..sep - 1];
    }
  }

  lemma PrintedLayout(computer: string, objectName: string, instance: string, counter: string)
    ensures Layout(FormatPath(computer, objectName, instance, counter),
                   Shown(computer, objectName, instance, counter).computer, objectName, instance, counter)
  {
    LocalLayout(objectName, instance, counter);
    if computer != "" && computer != "localhost" {
      RemoteLayout(FormatPath("", objectName, instance, counter), computer, objectName, instance, counter);
    }
  }

  /** The borders a printed path shows from the right up to the end of its object. */
  function InstanceBorders(path: string, computer: string, objectName: string, instance: string,
                           counter: string): Borders {
    var ro, sep := Lead(computer) + 1 + |objectName|, |path| - |counter| - 1;
    if instance == EMPTY_INSTANCE then NO_BORDERS.(leftCounter := sep)
    else Borders(-1, -1, ro, ro, sep - 1, sep, 0)
  }

  lemma ScanInstance(path: string, computer: string, objectName: string, instance: string, counter: string)
    requires Layout(path, computer, objectName, instance, counter)
    requires Printable(computer, objectName, instance, counter)
    ensures Scan(path, Lead(computer) + 1 + |objectName|)
         == InstanceBorders(path, computer, objectName, instance, counter)
  {
    var ro, sep := Lead(computer) + 1 + |objectName|, |path| - |counter| - 1;
    AfterCounter(path, sep);
    if instance != EMPTY_INSTANCE {
      AfterInstance(path, ro, sep - 1, sep);
    }
  }

  lemma ScanObject(path: string, computer: string, objectName: string, instance: string, counter: string)
    requires Layout(path, computer, objectName, instance, counter)
    requires Printable(computer, objectName, instance, counter)
    ensures Scan(path, Lead(computer))
         == InstanceBorders(path, computer, objectName, instance, counter).(leftObject := Lead(computer))
  {
    ScanInstance(path, computer, objectName, instance, counter);
    AfterText(path, Lead(computer), Lead(computer) + 1 + |objectName|,
              InstanceBorders(path, computer, objectName, instance, counter));
  }

  /** The borders of a printed path, each where the printer put the piece it delimits. */
  lemma PrintableScans(path: string, computer: string, objectName: string, instance: string, counter: string)
    requires Layout(path, computer, objectName, instance, counter)
    requires Printable(computer, objectName, instance, counter)
    ensures Scan(path, 0) ==
            InstanceBorders(path, computer, objectName, instance, counter)
            .(leftObject := Lead(computer), leftComputer := if computer == "" then -1 else 1)
  {
    ScanObject(path, computer, objectName, instance, counter);
    if computer != "" {
      AfterText(path, 1, Lead(computer), Scan(path, Lead(computer)));
      LeadingBackslash(path);
    }
  }

  lemma LeadingBackslash(path: string)
    requires |path| > 0 && path[0] == '\\' && Scan(path, 1).leftComputer > -1
    ensures Scan(path, 0) == Scan(path, 1)
  {
    ScanIsMeaningful(path, 1);
  }

  /** Cutting a printed path at those borders gives the printed pieces back. */
  lemma BordersCutPieces(path: string, computer: string, objectName: string, instance: string, counter: string)
    requires Layout(path, computer, objectName, instance, counter)
    requires Scan(path, 0) ==
             InstanceBorders(path, computer, objectName, instance, counter)
             .(leftObject := Lead(computer), leftComputer := if computer == "" then -1 else 1)
    ensures Parse(path) ==
            Ok(Parts(computer, objectName, if instance == EMPTY_INSTANCE then "" else instance, counter))
  {
  }

  /** The counter and object borders are determined by the backslashes outside brackets alone. */
  lemma SeparatorsAreUnique(path: string, lead: nat, sep: nat)
    requires lead < sep < |path|
    requires AtLevelZero(path, sep, '\\') && NoneAtLevelZero(path, '\\', sep + 1, |path|)
    requires AtLevelZero(path, lead, '\\') && NoneAtLevelZero(path, '\\', lead + 1, sep)
    ensures Scan(path, 0).leftCounter == sep && Scan(path, 0).leftObject == lead
  {
    ScanIsMeaningful(path, 0);
  }

  /** Without a bracketed instance the separators stay where the printer put them, whatever brackets there are. */
  lemma MarkedSeparators(path: string, computer: string, objectName: string, counter: string)
    requires Layout(path, computer, objectName, EMPTY_INSTANCE, counter)
    requires Neutral(objectName) && Neutral(counter)
    ensures Scan(path, 0).leftCounter == |path| - |counter| - 1
    ensures Scan(path, 0).leftObject == Lead(computer)
  {
    var lead, sep := Lead(computer), |path| - |counter| - 1;
    assert path[sep + 1..] == path[sep + 1..|path|];
    NeutralCut(path, sep + 1, |path|);
    NeutralCut(path, lead + 1, sep);
    SeparatorsAreUnique(path, lead, sep);
  }

  /** Parts that come back were printable. */
  lemma OnlyPrintableComesBack(path: string, computer: string, objectName: string, instance: string, counter: string)
    requires Layout(path, computer, objectName, instance, counter)
    requires Parse(path) ==
             Ok(Parts(computer, objectName, if instance == EMPTY_INSTANCE then "" else instance, counter))
    ensures Printable(computer, objectName, instance, counter)
  {
    AcceptedPartsAreWellFormed(path);
    BordersAreOrdered(path);
  }

  /**
   Print, then parse: the parts come back, up to the printer's abbreviations, exactly when the
   computer, object and counter are neutral and the instance is nested or absent without brackets
   elsewhere that could be taken for one.
   */
  lemma PrintThenParse(computer: string, objectName: string, instance: string, counter: string)
    ensures Parse(FormatPath(computer, objectName, instance, counter))
            == Ok(Shown(computer, objectName, instance, counter))
       <==> Printable(Shown(computer, objectName, instance, counter).computer, objectName, instance, counter)
  {
    var path := FormatPath(computer, objectName, instance, counter);
    var shown := Shown(computer, objectName, instance, counter);
    PrintedLayout(computer, objectName, instance, counter);
    if Parse(path) == Ok(shown) {
      OnlyPrintableComesBack(path, shown.computer, objectName, instance, counter);
    }
    if Printable(shown.computer, objectName, instance, counter) {
      PrintableScans(path, shown.computer, objectName, instance, counter);
      BordersCutPieces(path, shown.computer, objectName, instance, counter);
    }
  }

  /** How the collector prints a parsed path again: an empty instance becomes the no-instance marker. */
  function Reprint(p: Parts): string {
    FormatPath(p.computer, p.objectName, if p.instance == "" then EMPTY_INSTANCE else p.instance, p.counter)
  }

  /** Well-formed parts come back from being printed again exactly when they are reprintable. */
  lemma ReprintRestoresIff(p: Parts)
    requires Neutral(p.counter) && Neutral(p.objectName) && Neutral(p.computer) && Nested(p.instance)
    ensures Parse(Reprint(p)) == Ok(p) <==> Reprintable(p)
  {
    var marked := if p.instance == "" then EMPTY_INSTANCE else p.instance;
    PrintThenParse(p.computer, p.objectName, marked, p.counter);
    if marked == EMPTY_INSTANCE && (p.computer == "localhost" || p.instance == EMPTY_INSTANCE) {
      AbbreviationsAreLost(p);
    }
  }

  /**
   Parse, print, parse: whatever the first parse dropped, the second yields the same parts exactly
   when the computer is not spelled "localhost", the instance is not the no-instance marker, and an
   empty instance does not leave brackets behind that would now be read as one.
   */
  lemma ParsePrintParse(path: string)
    requires Parse(path).Ok?
    ensures Parse(Reprint(Parse(path).value)) == Parse(path) <==> Reprintable(Parse(path).value)
  {
    AcceptedPartsAreWellFormed(path);
    ReprintRestoresIff(Parse(path).value);
  }

  /** What is parsed from a path printed without instance: the object cut short by any instance found in it. */
  lemma ParsedWithoutInstance(path: string, computer: string, objectName: string, counter: string)
    requires Layout(path, computer, objectName, EMPTY_INSTANCE, counter) && Neutral(objectName) && Neutral(counter)
    requires Parse(path).Ok?
    ensures Parse(path).value.instance != "" ==> |Parse(path).value.objectName| < |objectName|
    ensures computer == "" ==> Parse(path).value.computer == ""
  {
    MarkedSeparators(path, computer, objectName, counter);
    PartsAreSlices(path);
  }

  /** A path printed without instance never parses back to a spelled-out "localhost" or no-instance marker. */
  lemma AbbreviationsAreLost(p: Parts)
    requires p.instance == "" || p.instance == EMPTY_INSTANCE
    requires p.computer == "localhost" || p.instance == EMPTY_INSTANCE
    requires Neutral(p.objectName) && Neutral(p.counter)
    ensures Parse(Reprint(p)) != Ok(p)
  {
    var computer := Shown(p.computer, p.objectName, EMPTY_INSTANCE, p.counter).computer;
    PrintedLayout(p.computer, p.objectName, EMPTY_INSTANCE, p.counter);
    if Parse(Reprint(p)).Ok? {
      ParsedWithoutInstance(Reprint(p), computer, p.objectName, p.counter);
    }
  }

  ghost predicate Reprintable(p: Parts) {
    && p.computer != "localhost"
    && p.instance != EMPTY_INSTANCE
    && (p.instance == "" ==> Inert(p.objectName) && Inert(p.computer))
  }

  /** In particular a path that showed no brackets around an instance always reprints faithfully. */
  lemma UnbracketedReprints(path: string)
    requires Parse(path).Ok? && Scan(path, 0).rightInstance == -1 && Parse(path).value.computer != "localhost"
    ensures Parse(Reprint(Parse(path).value)) == Parse(path)
  {
    BordersAreOrdered(path);
    AcceptedPartsAreWellFormed(path);
    ParsePrintParse(path);
  }

  lemma BracketsInObject()
    ensures Parse("\\O(a)()\\c") == Ok(Parts("", "O(a)", "", "c"))
  {
    var path := "\\O(a)()\\c";
    assert Scan(path, 8) == NO_BORDERS;
    assert Scan(path, 7) == NO_BORDERS.(leftCounter := 7);
    assert Scan(path, 6) == NO_BORDERS.(leftCounter := 7, rightInstance := 6, level := 1);
    assert Scan(path, 5) == Borders(-1, -1, 5, 5, 6, 7, 0);
    assert Scan(path, 3) == Borders(-1, -1, 5, 5, 6, 7, 1);
    assert Scan(path, 1) == Borders(-1, -1, 5, 5, 6, 7, 0);
    assert Scan(path, 0) == Borders(-1, 0, 5, 5, 6, 7, 0);
    assert path[1..5] == "O(a)" && path[6..6] == "" && path[8..] == "c";
  }

  lemma BracketsAsInstance()
    ensures Parse("\\O(a)\\c") == Ok(Parts("", "O", "a", "c"))
  {
    var path := "\\O(a)\\c";
    assert Scan(path, 6) == NO_BORDERS;
    assert Scan(path, 5) == NO_BORDERS.(leftCounter := 5);
    assert Scan(path, 4) == NO_BORDERS.(leftCounter := 5, rightInstance := 4, level := 1);
    assert Scan(path, 2) == Borders(-1, -1, 2, 2, 4, 5, 0);
    assert Scan(path, 0) == Borders(-1, 0, 2, 2, 4, 5, 0);
    assert path[1..2] == "O" && path[3..4] == "a" && path[6..] == "c";
  }

  lemma BracketsReprint()
    ensures Reprint(Parts("", "O(a)", "", "c")) == "\\O(a)\\c"
  {
    assert "\\" + "O(a)" + "\\" + "c" == "\\O(a)\\c";
  }

  /** Brackets left behind in the object are read as the instance the second time. */
  lemma ReprintMayMisread()
    ensures Parse("\\O(a)()\\c") == Ok(Parts("", "O(a)", "", "c"))
    ensures Parse(Reprint(Parts("", "O(a)", "", "c"))) == Ok(Parts("", "O", "a", "c"))
  {
    BracketsInObject();
    BracketsReprint();
    BracketsAsInstance();
  }
}
