/**
 The name sanitizer: a leftmost, non-overlapping replacement of "/sec" and "/Sec" by "_persec",
 of a space by "_", of "%" by "Percent" and of a backslash by nothing.
 */
module Sanitizer {

  predicate StartsPerSec(s: string) {
    |s| >= 4 && s[0] == '/' && (s[1] == 's' || s[1] == 'S') && s[2] == 'e' && s[3] == 'c'
  }

  function Sanitize(s: string): string {
    if s == [] then []
    else if StartsPerSec(s) then "_persec" + Sanitize(s[4..])
    else if s[0] == ' ' then "_" + Sanitize(s[1..])
    else if s[0] == '%' then "Percent" + Sanitize(s[1..])
    else if s[0] == '\\' then Sanitize(s[1..])
    else [s[0]] + Sanitize(s[1..])
  }

  /** The name stored in a counter: one pass over the configured name, then the raw-value suffix. */
  function CounterName(name: string, useRaw: bool): string {
    Sanitize(name) + if useRaw then "_Raw" else ""
  }

  /** The measurement stored in a counter, with its default. */
  function MeasurementName(measurement: string): string {
    var name := Sanitize(measurement);
    if name == "" then "win_perf_counters" else name
  }

  /** The published field name: the stored counter name goes through the sanitizer once more. */
  function FieldName(counterName: string): string {
    Sanitize(counterName)
  }

  /** What a published name must look like, stated without the replacer. */
  ghost predicate Clean(s: string) {
    forall i :: 0 <= i < |s| ==> s[i] !in {' ', '%', '\\'} && !StartsPerSec(s[i..])
  }

  function Strip(s: string): string {
    if s == [] then []
    else if s[0] == '\\' then Strip(s[1..])
    else [s[0]] + Strip(s[1..])
  }

  lemma {:induction false} OutputHasNoSpecials(s: string)
    ensures forall c :: c in Sanitize(s) ==> c !in {' ', '%', '\\'}
  {
    if s != [] {
      OutputHasNoSpecials(if StartsPerSec(s) then s[4..] else s[1..]);
    }
  }

  lemma CleanTail(s: string)
    requires s != []
    ensures Clean(s) <==> s[0] !in {' ', '%', '\\'} && !StartsPerSec(s) && Clean(s[1..])
  {
    var t := s[1..];
    assert s[0..] == s;
    forall i | 0 <= i < |t| ensures t[i] == s[i + 1] && t[i..] == s[i + 1..] {
    }
    if Clean(t) && s[0] !in {' ', '%', '\\'} && !StartsPerSec(s) {
      forall i | 0 < i < |s| ensures s[i] !in {' ', '%', '\\'} && !StartsPerSec(s[i..]) {
        assert t[i - 1] == s[i] && t[i - 1..] == s[i..];
      }
    }
  }

  /** A name is clean exactly when the sanitizer leaves it alone. */
  lemma {:induction false} CleanIffFixed(s: string)
    ensures Clean(s) <==> Sanitize(s) == s
  {
    if s != [] {
      CleanTail(s);
      CleanIffFixed(s[1..]);
      assert s == [s[0]] + s[1..];
      if Sanitize(s) == s {
        OutputHasNoSpecials(s);
        assert s[0] in s;
        assert Sanitize(s)[1..] == Sanitize(s[1..]);
      }
    }
  }

  /** Ordinary replacement text goes through the sanitizer unchanged. */
  lemma {:induction false} PlainPrefix(p: string, s: string)
    requires forall c :: c in p ==> c !in {'/', ' ', '%', '\\'}
    ensures Sanitize(p + s) == p + Sanitize(s)
  {
    if p == [] {
      assert p + s == s;
    } else {
      assert forall c :: c in p[1..] ==> c in p;
      PlainPrefix(p[1..], s);
      assert (p + s)[0] == p[0] && p[0] in p;
      assert (p + s)[1..] == p[1..] + s;
      assert Sanitize(p + s) == [p[0]] + (p[1..] + Sanitize(s));
      assert p + Sanitize(s) == [p[0]] + (p[1..] + Sanitize(s));
    }
  }

  function SkipBackslashes(s: string): (r: string)
    ensures |r| <= |s|
    ensures r == [] || r[0] != '\\'
    ensures Sanitize(r) == Sanitize(s) && Strip(r) == Strip(s)
  {
    if s != [] && s[0] == '\\' then SkipBackslashes(s[1..]) else s
  }

  /** The first letter the sanitizer emits is a letter of "sec" or "Sec" just when stripping would show it. */
  lemma NextLetter(s: string, c: char)
    requires c in {'s', 'S', 'e', 'c'}
    ensures var u := SkipBackslashes(s);
            (Sanitize(s) != [] && Sanitize(s)[0] == c <==> u != [] && u[0] == c) &&
            (Strip(s) != [] && Strip(s)[0] == c <==> u != [] && u[0] == c) &&
            (u != [] && u[0] == c ==>
               Sanitize(s) == [c] + Sanitize(u[1..]) && Strip(s) == [c] + Strip(u[1..]))
  {
  }

  /** The text goes on with this letter, backslashes aside, and then with the rest. */
  ghost predicate GoesOn(t: string, c: char, rest: string) {
    |rest| < |t| && Sanitize(t) == [c] + Sanitize(rest) && Strip(t) == [c] + Strip(rest)
  }

  lemma LetterAgrees(t: string, c: char) returns (rest: string)
    requires c in {'s', 'S', 'e', 'c'}
    ensures Sanitize(t) != [] && Sanitize(t)[0] == c <==> Strip(t) != [] && Strip(t)[0] == c
    ensures Strip(t) != [] && Strip(t)[0] == c ==> GoesOn(t, c, rest)
    ensures |rest| <= |t|
  {
    NextLetter(t, c);
    var u := SkipBackslashes(t);
    rest := if u == [] then [] else u[1..];
  }

  lemma TailAgrees(t: string) returns (rest: string)
    ensures "ec" <= Sanitize(t) <==> "ec" <= Strip(t)
    ensures "ec" <= Strip(t) ==> |rest| < |t| && Sanitize(t)[2..] == Sanitize(rest) && Strip(t)[2..] == Strip(rest)
    ensures |rest| <= |t|
  {
    var u := LetterAgrees(t, 'e');
    rest := u;
    if Strip(t) != [] && Strip(t)[0] == 'e' {
      rest := LetterAgrees(u, 'c');
      assert Sanitize(t)[1..] == Sanitize(u) && Strip(t)[1..] == Strip(u);
    }
  }

  lemma SlashReads(t: string)
    ensures StartsPerSec("/" + t) <==> t != [] && (t[0] == 's' || t[0] == 'S') && "ec" <= t[1..]
  {
  }

  /** What follows a slash reads "sec" after one pass just when it does after stripping backslashes. */
  lemma SlashAgrees(t: string) returns (rest: string)
    ensures StartsPerSec("/" + Sanitize(t)) <==> StartsPerSec("/" + Strip(t))
    ensures StartsPerSec("/" + Strip(t)) ==>
              |rest| < |t| && Sanitize(t)[3..] == Sanitize(rest) && Strip(t)[3..] == Strip(rest)
  {
    rest := [];
    SlashReads(Sanitize(t));
    SlashReads(Strip(t));
    var u := LetterAgrees(t, 's');
    var v := LetterAgrees(t, 'S');
    if Strip(t) != [] && (Strip(t)[0] == 's' || Strip(t)[0] == 'S') {
      u := if Strip(t)[0] == 's' then u else v;
      rest := TailAgrees(u);
      assert Sanitize(t)[1..] == Sanitize(u) && Strip(t)[1..] == Strip(u);
    }
  }

  /** Two passes mean: delete every backslash, then sanitize once. */
  lemma {:induction false} TwoPasses(s: string)
    ensures Sanitize(Sanitize(s)) == Sanitize(Strip(s))
    decreases |s|
  {
    if s == [] {
    } else if StartsPerSec(s) {
      TwoPasses(s[4..]);
      PlainPrefix("_persec", Sanitize(s[4..]));
      assert s == ['/', s[1], 'e', 'c'] + s[4..];
      StripPrefix(['/', s[1], 'e', 'c'], s[4..]);
      assert StartsPerSec(Strip(s));
      assert Strip(s)[4..] == Strip(s[4..]);
    } else {
      TwoPasses(s[1..]);
      if s[0] == ' ' {
        PlainPrefix("_", Sanitize(s[1..]));
      } else if s[0] == '%' {
        PlainPrefix("Percent", Sanitize(s[1..]));
      } else if s[0] == '/' {
        TwoPassesAfterSlash(s[1..]);
      } else if s[0] != '\\' {
        PlainPrefix([s[0]], Sanitize(s[1..]));
      }
    }
  }

  lemma {:induction false} TwoPassesAfterSlash(t: string)
    requires Sanitize(Sanitize(t)) == Sanitize(Strip(t))
    ensures Sanitize("/" + Sanitize(t)) == Sanitize("/" + Strip(t))
    decreases |t|, 0
  {
    var rest := SlashAgrees(t);
    var a, b := "/" + Sanitize(t), "/" + Strip(t);
    if StartsPerSec(b) {
      TwoPasses(rest);
      assert a[4..] == Sanitize(rest) && b[4..] == Strip(rest);
    } else {
      assert a[1..] == Sanitize(t) && b[1..] == Strip(t);
    }
  }

  lemma {:induction false} StripPrefix(p: string, s: string)
    requires '\\' !in p
    ensures Strip(p + s) == p + Strip(s)
  {
    if p == [] {
      assert p + s == s;
    } else {
      StripPrefix(p[1..], s);
      assert (p + s)[0] == p[0] && (p + s)[1..] == p[1..] + s;
    }
  }

  // ----- When one pass is enough

  /** A "/sec" or "/Sec" begins here that shows only once the backslashes are gone. */
  predicate SplitAt(s: string, i: nat)
    requires i < |s|
  {
    s[i] == '/' && StartsPerSec("/" + Strip(s[i + 1..])) && !StartsPerSec(s[i..])
  }

  /** Every "/sec" or "/Sec" that shows once the backslashes are gone was spelled without one. */
  ghost predicate NoSplitPerSec(s: string) {
    forall i :: 0 <= i < |s| ==> !SplitAt(s, i)
  }

  lemma SplitBehind(s: string, n: nat, i: nat)
    requires n + i < |s|
    ensures SplitAt(s[n..], i) <==> SplitAt(s, n + i)
  {
    assert s[n..][i..] == s[n + i..] && s[n..][i + 1..] == s[n + i + 1..];
  }

  /** Text where no such spelling begins can be left away in front. */
  lemma NoSplitBehind(s: string, n: nat)
    requires n <= |s|
    ensures NoSplitPerSec(s) <==> (forall i :: 0 <= i < n ==> !SplitAt(s, i)) && NoSplitPerSec(s[n..])
  {
    forall i | 0 <= i < |s| - n ensures SplitAt(s[n..], i) <==> SplitAt(s, n + i) {
      SplitBehind(s, n, i);
    }
    if NoSplitPerSec(s[n..]) {
      forall i | n <= i < |s| ensures !SplitAt(s, i) {
        SplitBehind(s, n, i - n);
      }
    }
  }

  lemma {:induction false} PlainPrefixIsClean(p: string, s: string)
    requires forall c :: c in p ==> c !in {'/', ' ', '%', '\\'}
    ensures Clean(p + s) <==> Clean(s)
  {
    if p == [] {
      assert p + s == s;
    } else {
      assert forall c :: c in p[1..] ==> c in p;
      PlainPrefixIsClean(p[1..], s);
      assert (p + s)[0] == p[0] && p[0] in p;
      assert (p + s)[1..] == p[1..] + s;
      CleanTail(p + s);
    }
  }

  /** One pass is enough exactly when no "/sec" or "/Sec" in the name is split by backslashes. */
  lemma {:induction false} OnePassSufficesIff(s: string)
    ensures Clean(Sanitize(s)) <==> NoSplitPerSec(s)
    decreases |s|
  {
    if s == [] {
    } else if StartsPerSec(s) {
      OnePassSufficesIff(s[4..]);
      PlainPrefixIsClean("_persec", Sanitize(s[4..]));
      assert s[0..] == s;
      assert forall i :: 0 <= i < 4 ==> !SplitAt(s, i);
      NoSplitBehind(s, 4);
    } else {
      OnePassSufficesIff(s[1..]);
      if s[0] == '/' {
        OnePassAfterSlash(s[1..]);
        assert s == "/" + s[1..];
      } else {
        NoSplitBehind(s, 1);
        OnePassAtPlain(s);
      }
    }
  }

  lemma OnePassAtPlain(s: string)
    requires s != [] && s[0] != '/'
    ensures Clean(Sanitize(s)) <==> Clean(Sanitize(s[1..]))
  {
    if s[0] == ' ' {
      PlainPrefixIsClean("_", Sanitize(s[1..]));
    } else if s[0] == '%' {
      PlainPrefixIsClean("Percent", Sanitize(s[1..]));
    } else if s[0] != '\\' {
      PlainPrefixIsClean([s[0]], Sanitize(s[1..]));
    }
  }

  lemma NoSplitAtSlash(t: string)
    requires !StartsPerSec("/" + t)
    ensures NoSplitPerSec("/" + t) <==> !StartsPerSec("/" + Strip(t)) && NoSplitPerSec(t)
  {
    var s := "/" + t;
    assert s[0..] == s && s[1..] == t;
    NoSplitBehind(s, 1);
    assert SplitAt(s, 0) <==> StartsPerSec("/" + Strip(t));
  }

  lemma CleanAtSlash(t: string)
    ensures Clean("/" + t) <==> !StartsPerSec("/" + t) && Clean(t)
  {
    var s := "/" + t;
    assert s[1..] == t;
    CleanTail(s);
  }

  lemma OnePassAfterSlash(t: string)
    requires !StartsPerSec("/" + t) && (Clean(Sanitize(t)) <==> NoSplitPerSec(t))
    ensures Clean(Sanitize("/" + t)) <==> NoSplitPerSec("/" + t)
  {
    var rest := SlashAgrees(t);
    NoSplitAtSlash(t);
    CleanAtSlash(Sanitize(t));
    assert ("/" + t)[1..] == t;
  }

  /** In particular one pass is enough for a name without backslashes, and it is not in general. */
  lemma OnePassWithoutBackslash(s: string)
    requires '\\' !in s
    ensures Clean(Sanitize(s))
  {
    StripPrefix(s, "");
    assert s + "" == s;
    TwoPasses(s);
    CleanIffFixed(Sanitize(s));
  }

  /** A measurement goes through the sanitizer only once, so that its name may be published unclean. */
  lemma MeasurementIsCleanIff(measurement: string)
    ensures Clean(MeasurementName(measurement)) <==> NoSplitPerSec(measurement)
  {
    OnePassSufficesIff(measurement);
    if Sanitize(measurement) == "" {
      PlainPrefixIsClean("win_perf_counters", "");
      assert "win_perf_counters" + "" == "win_perf_counters";
    }
  }

  lemma MeasurementMayBeUnclean()
    ensures MeasurementName("/\\sec") == "/sec" && !Clean(MeasurementName("/\\sec"))
  {
    OnePassIsNotEnough();
  }

  lemma OnePassIsNotEnough()
    ensures Sanitize("/\\sec") == "/sec" && !Clean(Sanitize("/\\sec"))
    ensures Sanitize(Sanitize("/\\sec")) == "_persec"
  {
    var s := "/\\sec";
    assert s[1..] == "\\sec" && s[2..] == "sec" && s[3..] == "ec" && s[4..] == "c";
    assert Sanitize(s[4..]) == "c";
    assert Sanitize(s[3..]) == "ec";
    assert Sanitize(s[2..]) == "sec";
    assert Sanitize(s[1..]) == "sec";
    assert Sanitize(s) == "/sec";
    assert "/sec"[0..] == "/sec" && "/sec"[4..] == "";
    assert StartsPerSec("/sec");
  }

  /** How much of the text the sanitizer replaces at once, and by what. */
  function Width(s: string): nat {
    if StartsPerSec(s) then 4 else 1
  }

  function Piece(s: string): string
    requires s != []
  {
    if StartsPerSec(s) then "_persec"
    else if s[0] == ' ' then "_"
    else if s[0] == '%' then "Percent"
    else if s[0] == '\\' then ""
    else [s[0]]
  }

  lemma PieceByPiece(s: string)
    requires s != []
    ensures Width(s) <= |s| && Sanitize(s) == Piece(s) + Sanitize(s[Width(s)..])
  {
    if StartsPerSec(s) {
      assert Piece(s) == "_persec" && Width(s) == 4;
    } else if s[0] == '\\' {
      assert Piece(s) == "" && Width(s) == 1;
      assert "" + Sanitize(s[1..]) == Sanitize(s[1..]);
    } else {
      assert Width(s) == 1;
    }
  }

  lemma SamePiece(s: string)
    requires s != []
    ensures Width(s) <= |s| && Width(s + "_Raw") == Width(s) && Piece(s + "_Raw") == Piece(s)
    ensures (s + "_Raw")[Width(s)..] == s[Width(s)..] + "_Raw"
  {
    var t := s + "_Raw";
    if |s| < 4 {
      assert t[|s|] == '_';
    }
    assert StartsPerSec(t) <==> StartsPerSec(s);
  }

  lemma {:induction false} RawSuffix(s: string)
    ensures Sanitize(s + "_Raw") == Sanitize(s) + "_Raw"
    decreases |s|
  {
    if s == [] {
      PlainPrefix("_Raw", "");
      assert s + "_Raw" == "_Raw" + "";
    } else {
      var rest := s[Width(s)..];
      SamePiece(s);
      PieceByPiece(s);
      PieceByPiece(s + "_Raw");
      RawSuffix(rest);
      assert Piece(s) + (Sanitize(rest) + "_Raw") == Piece(s) + Sanitize(rest) + "_Raw";
    }
  }

  /**
   Every published field name is clean, hence a fixed point of the sanitizer; it is the configured
   name without backslashes, sanitized once, followed by the raw suffix where one was asked for.
   */
  lemma PublishedNames(name: string, useRaw: bool)
    ensures Clean(FieldName(CounterName(name, useRaw)))
    ensures FieldName(FieldName(CounterName(name, useRaw))) == FieldName(CounterName(name, useRaw))
    ensures FieldName(CounterName(name, useRaw)) == Sanitize(Strip(name)) + if useRaw then "_Raw" else ""
  {
    OutputHasNoSpecials(name);
    TwoPasses(name);
    RawSuffix(Sanitize(name));
    assert Sanitize(name) + "" == Sanitize(name);
    OnePassWithoutBackslash(CounterName(name, useRaw));
    CleanIffFixed(FieldName(CounterName(name, useRaw)));
  }
}
