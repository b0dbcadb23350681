/**
 Counter paths `\\computer\object(instance)\counter`: the printer, the right-to-left parser with
 its six border indices and bracket level, and what the borders mean.
 */
module CounterPath {
  import opened Errors

  const EMPTY_INSTANCE := "------"

  datatype Parts = Parts(computer: string, objectName: string, instance: string, counter: string)

  function FormatPath(computer: string, objectName: string, instance: string, counter: string): string {
    var path := if instance == EMPTY_INSTANCE
                then "\\" + objectName + "\\" + counter
                else "\\" + objectName + "(" + instance + ")\\" + counter;
    if computer != "" && computer != "localhost" then "\\\\" + computer + path else path
  }

  /** The scanner's variables; -1 stands for a border that has not been seen. */
  datatype Borders = Borders(
    leftComputer: int,
    leftObject: int,
    rightObject: int,
    leftInstance: int,
    rightInstance: int,
    leftCounter: int,
    level: int)

  const NO_BORDERS := Borders(-1, -1, -1, -1, -1, -1, 0)

  /** The borders after the characters from position i to the end have been scanned. */
  function Scan(path: string, i: nat): Borders
    requires i <= |path|
    decreases |path| - i
  {
    if i == |path| then NO_BORDERS else ScanChar(Scan(path, i + 1), path[i], i)
  }

  function ScanChar(b: Borders, c: char, i: nat): Borders {
    match c
    case '\\' =>
      if b.level != 0 then b
      else if b.leftCounter == -1 then b.(leftCounter := i)
      else if b.leftObject == -1 then b.(leftObject := i)
      else if b.leftComputer == -1 then b.(leftComputer := i)
      else b
    case '(' =>
      var d := b.(level := b.level - 1);
      if b.leftInstance == -1 && d.level == 0 && b.leftObject == -1 && b.leftCounter > -1
      then d.(leftInstance := i, rightObject := i)
      else d
    case ')' =>
      var d := b.(level := b.level + 1);
      if b.rightInstance == -1 && b.level == 0 && b.leftCounter > -1
      then d.(rightInstance := i)
      else d
    case _ => b
  }

  /** The bracket level in front of position i, counted from the right: closing minus opening brackets. */
  function Level(s: string, i: nat): int
    requires i <= |s|
    decreases |s| - i
  {
    if i == |s| then 0 else Level(s, i + 1) + Bracket(s[i])
  }

  function Bracket(c: char): int {
    if c == ')' then 1 else if c == '(' then -1 else 0
  }

  /** Character i of s is c and lies outside all brackets, counted from the right. */
  ghost predicate AtLevelZero(s: string, i: int, c: char) {
    0 <= i < |s| && s[i] == c && Level(s, i + 1) == 0
  }

  /** No c outside brackets at positions lo to hi - 1. */
  ghost predicate NoneAtLevelZero(s: string, c: char, lo: int, hi: int) {
    forall i :: lo <= i < hi ==> !AtLevelZero(s, i, c)
  }

  /** Text that leaves the scanner outside brackets and shows it no separator. */
  ghost predicate Neutral(s: string) {
    Level(s, 0) == 0 && NoneAtLevelZero(s, '\\', 0, |s|)
  }

  /** Neutral text that moreover cannot be mistaken for a bracketed instance. */
  ghost predicate Inert(s: string) {
    Neutral(s) && NoneAtLevelZero(s, ')', 0, |s|)
  }

  /** Text whose brackets match, so that it can stand between brackets itself. */
  ghost predicate Nested(s: string) {
    Level(s, 0) == 0 && forall i :: 0 <= i <= |s| ==> Level(s, i) >= 0
  }

  /** What each border means, when the characters from position i on have been scanned. */
  ghost predicate BordersMean(path: string, i: nat, b: Borders)
    requires i <= |path|
  {
    && b.level == Level(path, i)
    && b.rightObject == b.leftInstance
    && SeparatorsMean(path, i, b)
    && InstanceMeans(path, i, b)
  }

  /** The separators are the last three backslashes outside brackets. */
  ghost predicate SeparatorsMean(path: string, i: nat, b: Borders)
    requires i <= |path|
  {
    if b.leftCounter == -1 then
      && b.leftObject == -1 && b.leftComputer == -1
      && NoneAtLevelZero(path, '\\', i, |path|)
    else
      && i <= b.leftCounter && AtLevelZero(path, b.leftCounter, '\\')
      && NoneAtLevelZero(path, '\\', b.leftCounter + 1, |path|)
      && if b.leftObject == -1 then
           b.leftComputer == -1 && NoneAtLevelZero(path, '\\', i, b.leftCounter)
         else
           && i <= b.leftObject < b.leftCounter && AtLevelZero(path, b.leftObject, '\\')
           && NoneAtLevelZero(path, '\\', b.leftObject + 1, b.leftCounter)
           && if b.leftComputer == -1 then
                NoneAtLevelZero(path, '\\', i, b.leftObject)
              else
                && i <= b.leftComputer < b.leftObject && AtLevelZero(path, b.leftComputer, '\\')
                && NoneAtLevelZero(path, '\\', b.leftComputer + 1, b.leftObject)
  }

  /** The positions lo to hi lie inside a bracket. */
  ghost predicate Inside(path: string, lo: int, hi: int)
    requires 0 <= lo && hi <= |path|
  {
    forall j :: lo <= j <= hi ==> Level(path, j) >= 1
  }

  /** The instance is enclosed by the last bracket pair outside brackets left of the counter. */
  ghost predicate InstanceMeans(path: string, i: nat, b: Borders)
    requires i <= |path|
  {
    if b.rightInstance == -1 then
      && b.leftInstance == -1
      && (b.leftCounter == -1 ||
          (i <= b.leftCounter <= |path| && NoneAtLevelZero(path, ')', i, b.leftCounter) &&
           forall j :: i <= j <= b.leftCounter ==> Level(path, j) <= 0))
    else
      && i <= b.rightInstance < b.leftCounter <= |path| && AtLevelZero(path, b.rightInstance, ')')
      && if b.leftInstance == -1 then
           (b.leftObject == -1 ==> Inside(path, i, b.rightInstance)) &&
           (b.leftObject != -1 ==> b.rightInstance < b.leftObject)
         else
           && i <= b.leftInstance < b.rightInstance && path[b.leftInstance] == '('
           && Level(path, b.leftInstance) == 0 && Inside(path, b.leftInstance + 1, b.rightInstance)
           && (b.leftObject == -1 || b.leftObject < b.leftInstance)
  }

  /** The scanner's borders mean what they are meant to, on every text and at every step. */
  lemma {:induction false} ScanIsMeaningful(path: string, i: nat)
    requires i <= |path|
    ensures BordersMean(path, i, Scan(path, i))
    decreases |path| - i
  {
    if i < |path| {
      ScanIsMeaningful(path, i + 1);
      SeparatorStep(path, i, Scan(path, i + 1));
      InstanceStep(path, i, Scan(path, i + 1));
    }
  }

  lemma OneFurther(path: string, c: char, i: nat, hi: int)
    requires NoneAtLevelZero(path, c, i + 1, hi) && !AtLevelZero(path, i, c)
    ensures NoneAtLevelZero(path, c, i, hi)
  {
  }

  /** Scanning past another character extends the outermost gap ... */
  lemma GapStep(path: string, i: nat, b: Borders)
    requires i < |path| && SeparatorsMean(path, i + 1, b) && !AtLevelZero(path, i, '\\')
    ensures SeparatorsMean(path, i, b)
  {
    if b.leftCounter == -1 {
      OneFurther(path, '\\', i, |path|);
    } else if b.leftObject == -1 {
      OneFurther(path, '\\', i, b.leftCounter);
    } else if b.leftComputer == -1 {
      OneFurther(path, '\\', i, b.leftObject);
    }
  }

  /** ... and a separator closes it. */
  lemma SeparatorStep(path: string, i: nat, b: Borders)
    requires i < |path| && b.level == Level(path, i + 1) && SeparatorsMean(path, i + 1, b)
    ensures SeparatorsMean(path, i, ScanChar(b, path[i], i))
  {
    var r := ScanChar(b, path[i], i);
    if path[i] == '\\' && b.level == 0 {
      assert AtLevelZero(path, i, '\\');
    } else {
      GapStep(path, i, b);
      SameSeparators(path, i, b, r);
    }
  }

  lemma SameSeparators(path: string, i: nat, b: Borders, r: Borders)
    requires i <= |path| && SeparatorsMean(path, i, b)
    requires r.leftCounter == b.leftCounter && r.leftObject == b.leftObject && r.leftComputer == b.leftComputer
    ensures SeparatorsMean(path, i, r)
  {
  }

  lemma InstanceStep(path: string, i: nat, b: Borders)
    requires i < |path| && BordersMean(path, i + 1, b)
    ensures InstanceMeans(path, i, ScanChar(b, path[i], i))
  {
    assert AtLevelZero(path, i, ')') <==> path[i] == ')' && b.level == 0;
  }

  /** The border order that keeps every slice of the path in bounds. */
  predicate Ordered(path: string, b: Borders) {
    && -1 <= b.leftCounter < |path| && -1 <= b.leftObject && -1 <= b.leftComputer
    && (b.leftObject > -1 ==> b.leftObject < b.leftCounter)
    && (b.leftComputer > -1 ==> b.leftComputer < b.leftObject)
    && b.rightObject == b.leftInstance && -1 <= b.leftInstance && -1 <= b.rightInstance < |path|
    && (b.leftInstance > -1 ==> b.leftObject < b.leftInstance < b.rightInstance < b.leftCounter)
  }

  /** In particular a left instance border never occurs without a right one further right. */
  lemma BordersAreOrdered(path: string)
    ensures Ordered(path, Scan(path, 0))
  {
    ScanIsMeaningful(path, 0);
  }

  /** The parser's tail: which border combinations are errors, and the slices otherwise. */
  function Finish(path: string, b: Borders): Result<Parts>
    requires Ordered(path, b)
  {
    var ro := if b.rightObject == -1 then b.leftCounter else b.rightObject;
    if ro == -1 || b.leftObject == -1 then Err(BadCounterPath)
    else if b.leftComputer > -1 && (b.leftComputer != 1 || b.leftComputer == b.leftObject - 1) then Err(BadCounterPath)
    else if (b.leftInstance > -1) != (b.rightInstance > -1) then Err(BadCounterPath)
    else
      var computer := if b.leftComputer > -1 then path[b.leftComputer + 1..b.leftObject] else "";
      var instance := if b.leftInstance > -1 then path[b.leftInstance + 1..b.rightInstance] else "";
      Ok(Parts(computer, path[b.leftObject + 1..ro], instance, path[b.leftCounter + 1..]))
  }

  function Parse(path: string): Result<Parts> {
    BordersAreOrdered(path);
    Finish(path, Scan(path, 0))
  }

  /** The parser's loop, from the right end of the path to its left end. */
  method ScanPath(path: string) returns (b: Borders)
    ensures b == Scan(path, 0)
  {
    var leftComputer, leftObject, rightObject := -1, -1, -1;
    var leftInstance, rightInstance, leftCounter := -1, -1, -1;
    var level := 0;
    var i := |path| - 1;
    while i >= 0
      invariant -1 <= i < |path|
      invariant Borders(leftComputer, leftObject, rightObject, leftInstance, rightInstance, leftCounter, level)
             == Scan(path, i + 1)
    {
      match path[i] {
        case '\\' =>
          if level == 0 {
            if leftCounter == -1 {
              leftCounter := i;
            } else if leftObject == -1 {
              leftObject := i;
            } else if leftComputer == -1 {
              leftComputer := i;
            }
          }
        case '(' =>
          level := level - 1;
          if leftInstance == -1 && level == 0 && leftObject == -1 && leftCounter > -1 {
            leftInstance := i;
            rightObject := i;
          }
        case ')' =>
          if rightInstance == -1 && level == 0 && leftCounter > -1 {
            rightInstance := i;
          }
          level := level + 1;
        case _ =>
      }
      i := i - 1;
    }
    b := Borders(leftComputer, leftObject, rightObject, leftInstance, rightInstance, leftCounter, level);
  }

  /** The parser: the loop, the border checks in order, and the slices. */
  method ExtractCounterInfo(path: string) returns (r: Result<Parts>)
    ensures r == Parse(path)
  {
    var b := ScanPath(path);
    BordersAreOrdered(path);
    var rightObject := if b.rightObject == -1 then b.leftCounter else b.rightObject;
    if rightObject == -1 || b.leftObject == -1 {
      return Err(BadCounterPath);
    }
    var computer, instance := "", "";
    if b.leftComputer > -1 {
      if b.leftComputer != 1 || b.leftComputer == b.leftObject - 1 {
        return Err(BadCounterPath);
      }
      computer := path[b.leftComputer + 1..b.leftObject];
    }
    if b.leftInstance > -1 && b.rightInstance > -1 {
      instance := path[b.leftInstance + 1..b.rightInstance];
    } else if (b.leftInstance == -1 && b.rightInstance > -1) || (b.leftInstance > -1 && b.rightInstance == -1) {
      return Err(BadCounterPath);
    }
    return Ok(Parts(computer, path[b.leftObject + 1..rightObject], instance, path[b.leftCounter + 1..]));
  }
}
