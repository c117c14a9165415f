/** The Python string operations the plugin locator parser and the webhook
    interceptor rely on: `lower`, `upper`, `strip`, `split`, `join`, slicing
    and the filtering of empty pieces, on strings as sequences of characters. */
module Text {

  type String = seq<char>

  // ---------------------------------------------------------------------------
  // Letter case (ASCII letters; see README for the rest of Unicode)

  predicate IsUpper(c: char) { 'A' <= c <= 'Z' }

  predicate IsLower(c: char) { 'a' <= c <= 'z' }

  /** No upper-case letter occurs in `s`. */
  predicate NoUpper(s: String) {
    forall i :: 0 <= i < |s| ==> !IsUpper(s[i])
  }

  /** No lower-case letter occurs in `s`. */
  predicate NoLower(s: String) {
    forall i :: 0 <= i < |s| ==> !IsLower(s[i])
  }

  function LowerChar(c: char): (d: char)
    ensures !IsUpper(d)
    ensures IsUpper(c) ==> IsLower(d) && d as int - c as int == 'a' as int - 'A' as int
    ensures !IsUpper(c) ==> d == c
  {
    if IsUpper(c) then (c as int - 'A' as int + 'a' as int) as char else c
  }

  function UpperChar(c: char): (d: char)
    ensures !IsLower(d)
    ensures IsLower(c) ==> IsUpper(d) && c as int - d as int == 'a' as int - 'A' as int
    ensures !IsLower(c) ==> d == c
  {
    if IsLower(c) then (c as int - 'a' as int + 'A' as int) as char else c
  }

  /** Python's `str.lower()`: every upper-case letter replaced by its
      lower-case partner, everything else kept in place. */
  function Lower(s: String): (r: String)
    ensures |r| == |s| && NoUpper(r)
    ensures forall i :: 0 <= i < |s| ==> r[i] == LowerChar(s[i])
    ensures NoUpper(s) ==> r == s
  {
    seq(|s|, i requires 0 <= i < |s| => LowerChar(s[i]))
  }

  /** Python's `str.upper()`. */
  function Upper(s: String): (r: String)
    ensures |r| == |s| && NoLower(r)
    ensures forall i :: 0 <= i < |s| ==> r[i] == UpperChar(s[i])
    ensures NoLower(s) ==> r == s
  {
    seq(|s|, i requires 0 <= i < |s| => UpperChar(s[i]))
  }

  /** Lowering distributes over concatenation, so a lower-case prefix such as a
      URL scheme survives `lower()` of the whole string. */
  lemma {:induction false} LowerAppend(a: String, b: String)
    ensures Lower(a + b) == Lower(a) + Lower(b)
  {
  }

  /** Every piece lower-cased. */
  function LowerAll(parts: seq<String>): (r: seq<String>)
    ensures |r| == |parts|
    ensures forall k :: 0 <= k < |parts| ==> r[k] == Lower(parts[k])
  {
    seq(|parts|, k requires 0 <= k < |parts| => Lower(parts[k]))
  }

  /** Lower-casing a joined list is joining the lower-cased pieces, and it
      puts a slash into no piece. */
  lemma {:induction false} LowerJoin(parts: seq<String>)
    ensures Lower(Join(parts, '/')) == Join(LowerAll(parts), '/')
    ensures forall k :: 0 <= k < |parts| && '/' !in parts[k] ==> '/' !in LowerAll(parts)[k]
  {
    if |parts| > 1 {
      LowerJoin(parts[1..]);
      assert LowerAll(parts)[1..] == LowerAll(parts[1..]);
      LowerAppend(parts[0] + ['/'], Join(parts[1..], '/'));
      LowerAppend(parts[0], ['/']);
    }
    forall k | 0 <= k < |parts| && '/' !in parts[k] ensures '/' !in LowerAll(parts)[k] {
      var l := Lower(parts[k]);
      assert forall i :: 0 <= i < |l| ==> l[i] == LowerChar(parts[k][i]) && parts[k][i] != '/';
    }
  }

  lemma {:induction false} NoUpperAppend(a: String, b: String)
    requires NoUpper(a) && NoUpper(b)
    ensures NoUpper(a + b)
  {
  }

  // ---------------------------------------------------------------------------
  // Whitespace and `strip`

  /** The characters Python's `str.isspace()` accepts, which is what `strip()`
      without arguments removes. */
  predicate IsSpace(c: char) {
    c == ' ' || '\t' <= c <= '\r' || '\U{1C}' <= c <= '\U{1F}'
    || c == '\U{85}' || c == '\U{A0}' || c == '\U{1680}'
    || '\U{2000}' <= c <= '\U{200A}' || c == '\U{2028}' || c == '\U{2029}'
    || c == '\U{202F}' || c == '\U{205F}' || c == '\U{3000}'
  }

  /** The characters a `strip` call removes: `strip()` removes whitespace,
      `strip(c)` removes the one character `c`. */
  datatype CharClass = Whitespace | Only(c: char)

  predicate InClass(c: char, cls: CharClass) {
    match cls
    case Whitespace => IsSpace(c)
    case Only(d) => c == d
  }

  /** The number of leading characters of class `cls`. */
  function LeadCount(s: String, cls: CharClass): (n: nat)
    ensures n <= |s|
    ensures forall i :: 0 <= i < n ==> InClass(s[i], cls)
    ensures n == |s| || !InClass(s[n], cls)
    decreases |s|
  {
    if s != [] && InClass(s[0], cls) then
      var n := 1 + LeadCount(s[1..], cls);
      assert forall i :: 1 <= i < |s| ==> s[i] == s[1..][i - 1];
      n
    else 0
  }

  /** The number of trailing characters of class `cls`. */
  function TrailCount(s: String, cls: CharClass): (n: nat)
    ensures n <= |s|
    ensures forall i :: |s| - n <= i < |s| ==> InClass(s[i], cls)
    ensures n == |s| || !InClass(s[|s| - n - 1], cls)
    decreases |s|
  {
    if s != [] && InClass(s[|s| - 1], cls) then
      var n := 1 + TrailCount(s[..|s| - 1], cls);
      assert forall i :: 0 <= i < |s| - 1 ==> s[i] == s[..|s| - 1][i];
      n
    else 0
  }

  /** Removes the leading characters of class `cls`. */
  function TrimStart(s: String, cls: CharClass): (r: String)
    ensures r == [] || !InClass(r[0], cls)
    ensures (s == [] || !InClass(s[0], cls)) ==> r == s
  {
    s[LeadCount(s, cls)..]
  }

  /** Removes the trailing characters of class `cls`. */
  function TrimEnd(s: String, cls: CharClass): (r: String)
    ensures r == [] || !InClass(r[|r| - 1], cls)
    ensures (s == [] || !InClass(s[|s| - 1], cls)) ==> r == s
  {
    s[..|s| - TrailCount(s, cls)]
  }

  /** One leading character of the class is removed like the rest. */
  lemma {:induction false} TrimStartStep(s: String, cls: CharClass)
    requires s != [] && InClass(s[0], cls)
    ensures TrimStart(s, cls) == TrimStart(s[1..], cls)
  {
    var n := LeadCount(s[1..], cls);
    assert s[1..][n..] == s[1 + n..];
  }

  /** One trailing character of the class is removed like the rest. */
  lemma {:induction false} TrimEndStep(s: String, cls: CharClass)
    requires s != [] && InClass(s[|s| - 1], cls)
    ensures TrimEnd(s, cls) == TrimEnd(s[..|s| - 1], cls)
  {
    var init := s[..|s| - 1];
    var n := TrailCount(init, cls);
    assert init[..|init| - n] == s[..|s| - 1 - n];
  }

  /** Python's `str.strip()` and `str.strip(c)`: neither end of the result is
      of the stripped class, and a string whose ends are not is left alone. */
  function Strip(s: String, cls: CharClass): (r: String)
    ensures |r| <= |s|
    ensures r == [] || (!InClass(r[0], cls) && !InClass(r[|r| - 1], cls))
    ensures (s == [] || (!InClass(s[0], cls) && !InClass(s[|s| - 1], cls))) ==> r == s
  {
    var t := TrimStart(s, cls);
    var r := TrimEnd(t, cls);
    assert r != [] ==> r[0] == t[0];
    r
  }

  /** Stripping keeps the characters of `s` from the end of its leading run
      of the class on. */
  lemma {:induction false} StripSlice(s: String, cls: CharClass)
    ensures var r, k := Strip(s, cls), LeadCount(s, cls);
      k + |r| <= |s| && r == s[k..k + |r|]
  {
    var k := LeadCount(s, cls);
    var t := s[k..];
    var m := TrailCount(t, cls);
    assert Strip(s, cls) == t[..|t| - m];
    assert t[..|t| - m] == s[k..k + |t| - m];
  }

  /** What stripping cuts off at the end is all of the class. */
  lemma {:induction false} StripTrail(s: String, cls: CharClass)
    ensures var r, k := Strip(s, cls), LeadCount(s, cls);
      forall i :: k + |r| <= i < |s| ==> InClass(s[i], cls)
  {
    var k := LeadCount(s, cls);
    var t := s[k..];
    var m := TrailCount(t, cls);
    assert |Strip(s, cls)| == |t| - m by {
      assert Strip(s, cls) == t[..|t| - m];
    }
    forall i | k + |t| - m <= i < |s| ensures InClass(s[i], cls) {
      assert s[i] == t[i - k];
    }
  }

  /** Stripping keeps an infix of `s` and cuts off only characters of the
      stripped class, on both sides. */
  lemma {:induction false} StripInfix(s: String, cls: CharClass)
    ensures var r, k := Strip(s, cls), LeadCount(s, cls);
      && k + |r| <= |s| && r == s[k..k + |r|]
      && (forall i :: 0 <= i < k ==> InClass(s[i], cls))
      && (forall i :: k + |r| <= i < |s| ==> InClass(s[i], cls))
  {
    StripSlice(s, cls);
    StripTrail(s, cls);
  }

  lemma {:induction false} StripNoUpper(s: String, cls: CharClass)
    requires NoUpper(s)
    ensures NoUpper(Strip(s, cls))
  {
  }

  // ---------------------------------------------------------------------------
  // Counting, `split` and `join`

  /** Number of occurrences of `c` in `s`. */
  function Count(s: String, c: char): nat
  {
    if s == [] then 0 else (if s[0] == c then 1 else 0) + Count(s[1..], c)
  }

  lemma {:induction false} CountAppend(a: String, b: String, c: char)
    ensures Count(a + b, c) == Count(a, c) + Count(b, c)
  {
    if a == [] {
      assert a + b == b;
    } else {
      assert (a + b)[1..] == a[1..] + b;
      CountAppend(a[1..], b, c);
    }
  }

  /** A string without `c` counts it zero times. */
  lemma {:induction false} CountNone(s: String, c: char)
    requires c !in s
    ensures Count(s, c) == 0
  {
    if s != [] {
      assert forall i :: 0 <= i < |s| - 1 ==> s[1..][i] == s[i + 1];
      CountNone(s[1..], c);
    }
  }

  /** Two strings that have `c` at the same positions count it equally often. */
  lemma {:induction false} CountSamePositions(a: String, b: String, c: char)
    requires |a| == |b|
    requires forall i :: 0 <= i < |a| ==> (a[i] == c <==> b[i] == c)
    ensures Count(a, c) == Count(b, c)
  {
    if a != [] {
      CountSamePositions(a[1..], b[1..], c);
    }
  }

  /** Lowering keeps every character that is not a letter, so it keeps the
      number of slashes. */
  lemma {:induction false} CountLower(s: String)
    ensures Count(Lower(s), '/') == Count(s, '/')
  {
    CountSamePositions(Lower(s), s, '/');
  }

  /** Trimming the start removes no character outside the trimmed class. */
  lemma {:induction false} CountTrimStart(s: String, cls: CharClass, c: char)
    requires !InClass(c, cls)
    ensures Count(TrimStart(s, cls), c) == Count(s, c)
    decreases |s|
  {
    if s != [] && InClass(s[0], cls) {
      TrimStartStep(s, cls);
      CountTrimStart(s[1..], cls, c);
    }
  }

  /** Trimming the end removes no character outside the trimmed class. */
  lemma {:induction false} CountTrimEnd(s: String, cls: CharClass, c: char)
    requires !InClass(c, cls)
    ensures Count(TrimEnd(s, cls), c) == Count(s, c)
    decreases |s|
  {
    if s != [] && InClass(s[|s| - 1], cls) {
      var init := s[..|s| - 1];
      TrimEndStep(s, cls);
      CountTrimEnd(init, cls, c);
      assert s == init + [s[|s| - 1]];
      CountAppend(init, [s[|s| - 1]], c);
    }
  }

  /** Stripping removes no character outside the stripped class. */
  lemma {:induction false} CountStrip(s: String, cls: CharClass, c: char)
    requires !InClass(c, cls)
    ensures Count(Strip(s, cls), c) == Count(s, c)
  {
    CountTrimStart(s, cls, c);
    CountTrimEnd(TrimStart(s, cls), cls, c);
  }

  /** Python's `sep.join(parts)`; the empty list joins to the empty string. */
  function Join(parts: seq<String>, sep: char): String
  {
    if |parts| == 0 then []
    else if |parts| == 1 then parts[0]
    else parts[0] + [sep] + Join(parts[1..], sep)
  }

  /** A joined list starts with its first piece and ends with its last. */
  lemma {:induction false} JoinEnds(parts: seq<String>, sep: char)
    requires |parts| >= 1
    ensures parts[0] <= Join(parts, sep)
    ensures var r, last := Join(parts, sep), parts[|parts| - 1];
      |last| <= |r| && r[|r| - |last|..] == last
  {
    if |parts| > 1 {
      JoinEnds(parts[1..], sep);
      var rest := Join(parts[1..], sep);
      var r := parts[0] + [sep] + rest;
      assert r[|r| - |rest|..] == rest;
    }
  }

  /** Pieces without the separator are joined with exactly one separator
      between each two. */
  lemma {:induction false} JoinCount(parts: seq<String>, sep: char)
    requires |parts| >= 1
    requires forall k :: 0 <= k < |parts| ==> sep !in parts[k]
    ensures Count(Join(parts, sep), sep) == |parts| - 1
  {
    CountNone(parts[0], sep);
    if |parts| > 1 {
      JoinCount(parts[1..], sep);
      CountAppend(parts[0], [sep], sep);
      CountAppend(parts[0] + [sep], Join(parts[1..], sep), sep);
    }
  }

  /** Python's `s.split(sep)`: the pieces between the separators, empty pieces
      included, so there is always one piece more than there are separators;
      no piece contains the separator and joining the pieces gives `s` back. */
  function Split(s: String, sep: char): (r: seq<String>)
    ensures |r| == Count(s, sep) + 1
    ensures forall k :: 0 <= k < |r| ==> sep !in r[k]
    ensures Join(r, sep) == s
    decreases |s|
  {
    if s == [] then [[]]
    else
      var rest := Split(s[1..], sep);
      if s[0] == sep then [[]] + rest
      else
        assert Join(rest, sep) == s[1..];
        var r := [[s[0]] + rest[0]] + rest[1..];
        assert |rest| > 1 ==> Join(rest, sep) == rest[0] + [sep] + Join(rest[1..], sep);
        assert r[1..] == rest[1..];
        r
  }

  /** A string without the separator is a single piece. */
  lemma {:induction false} SplitNoSep(s: String, sep: char)
    requires sep !in s
    ensures Split(s, sep) == [s]
  {
  }

  /** Splitting at a separator splits the two sides independently. */
  lemma {:induction false} SplitAppend(a: String, b: String, sep: char)
    ensures Split(a + [sep] + b, sep) == Split(a, sep) + Split(b, sep)
  {
    if a == [] {
      assert a + [sep] + b == [sep] + b;
      assert ([sep] + b)[1..] == b;
    } else {
      assert (a + [sep] + b)[0] == a[0];
      assert (a + [sep] + b)[1..] == a[1..] + [sep] + b;
      SplitAppend(a[1..], b, sep);
    }
  }

  /** `split` undoes `join` when no piece holds the separator. */
  lemma {:induction false} SplitJoin(parts: seq<String>, sep: char)
    requires |parts| >= 1
    requires forall k :: 0 <= k < |parts| ==> sep !in parts[k]
    ensures Split(Join(parts, sep), sep) == parts
  {
    if |parts| == 1 {
      SplitNoSep(parts[0], sep);
    } else {
      SplitNoSep(parts[0], sep);
      SplitJoin(parts[1..], sep);
      SplitAppend(parts[0], Join(parts[1..], sep), sep);
      assert [parts[0]] + parts[1..] == parts;
    }
  }

  /** Every piece of a string without upper-case letters has none either. */
  lemma {:induction false} SplitNoUpper(s: String, sep: char)
    requires NoUpper(s)
    ensures forall k :: 0 <= k < |Split(s, sep)| ==> NoUpper(Split(s, sep)[k])
  {
    if s != [] {
      SplitNoUpper(s[1..], sep);
      var rest := Split(s[1..], sep);
      if s[0] != sep {
        assert NoUpper([s[0]]);
        NoUpperAppend([s[0]], rest[0]);
      }
    }
  }

  /** Joining pieces without upper-case letters gives a string without them. */
  lemma {:induction false} JoinNoUpper(parts: seq<String>, sep: char)
    requires !IsUpper(sep)
    requires forall k :: 0 <= k < |parts| ==> NoUpper(parts[k])
    ensures NoUpper(Join(parts, sep))
  {
    if |parts| > 1 {
      JoinNoUpper(parts[1..], sep);
      NoUpperAppend(parts[0], [sep]);
      NoUpperAppend(parts[0] + [sep], Join(parts[1..], sep));
    }
  }

  /** The first character of a joined list is that of its first piece. */
  lemma {:induction false} JoinFirst(parts: seq<String>, sep: char)
    requires |parts| >= 1 && parts[0] != []
    ensures Join(parts, sep) != [] && Join(parts, sep)[0] == parts[0][0]
  {
  }

  /** The last character of a joined list is that of its last piece. */
  lemma {:induction false} JoinLast(parts: seq<String>, sep: char)
    requires |parts| >= 1 && parts[|parts| - 1] != []
    ensures var j := Join(parts, sep); j != [] && j[|j| - 1] == parts[|parts| - 1][|parts[|parts| - 1]| - 1]
  {
    if |parts| > 1 {
      JoinLast(parts[1..], sep);
    }
  }

  // ---------------------------------------------------------------------------
  // Slicing and filtering

  /** Python's `s[n:]`, which is empty when `n` is past the end. */
  function SliceFrom<T>(s: seq<T>, n: nat): (r: seq<T>)
    ensures |r| == if n <= |s| then |s| - n else 0
    ensures forall i :: 0 <= i < |r| ==> r[i] == s[n + i]
  {
    if n <= |s| then s[n..] else []
  }

  /** The filter that keeps the truthy pieces of a split: of strings only the
      empty one is falsy, so exactly the empty pieces go and the others keep
      their order. */
  function DropEmpty(parts: seq<String>): (r: seq<String>)
    ensures |r| <= |parts|
    ensures forall k :: 0 <= k < |r| ==> r[k] != [] && r[k] in parts
    ensures forall k :: 0 <= k < |parts| && parts[k] != [] ==> parts[k] in r
    ensures (forall k :: 0 <= k < |parts| ==> parts[k] != []) ==> r == parts
  {
    if parts == [] then []
    else if parts[0] == [] then DropEmpty(parts[1..])
    else [parts[0]] + DropEmpty(parts[1..])
  }

  /** The filter works piece by piece: it filters the two halves of a list
      independently, so every non-empty piece is kept as often as it occurs
      and in its place. */
  lemma {:induction false} DropEmptyAppend(a: seq<String>, b: seq<String>)
    ensures DropEmpty(a + b) == DropEmpty(a) + DropEmpty(b)
  {
    if a == [] {
      assert a + b == b;
    } else {
      var ab := a + b;
      assert ab[0] == a[0] && ab[1..] == a[1..] + b;
      DropEmptyAppend(a[1..], b);
    }
  }

  /** A single piece is dropped exactly when it is empty. */
  lemma {:induction false} DropEmptySingle(x: String)
    ensures DropEmpty([x]) == if x == [] then [] else [x]
  {
    assert [x][1..] == [];
  }

  /** The list without its leading empty pieces. */
  function DropLeadingEmpty(parts: seq<String>): (r: seq<String>)
    ensures |r| <= |parts| && r == parts[|parts| - |r|..]
    ensures forall k :: 0 <= k < |parts| - |r| ==> parts[k] == []
    ensures r == [] || r[0] != []
  {
    if parts != [] && parts[0] == [] then
      var rest := parts[1..];
      var r := DropLeadingEmpty(rest);
      assert rest[|rest| - |r|..] == parts[|parts| - |r|..];
      assert forall k :: 1 <= k < |parts| ==> parts[k] == rest[k - 1];
      r
    else parts
  }

  /** The list without its trailing empty pieces. */
  function DropTrailingEmpty(parts: seq<String>): (r: seq<String>)
    ensures |r| <= |parts| && r == parts[..|r|]
    ensures forall k :: |r| <= k < |parts| ==> parts[k] == []
    ensures r == [] || r[|r| - 1] != []
  {
    if parts != [] && parts[|parts| - 1] == [] then
      var init := parts[..|parts| - 1];
      var r := DropTrailingEmpty(init);
      assert init[..|r|] == parts[..|r|];
      assert forall k :: 0 <= k < |init| ==> parts[k] == init[k];
      r
    else parts
  }

  /** The list without empty pieces at either end; the pieces in between are
      kept, empty ones included. */
  function TrimEmpty(parts: seq<String>): seq<String>
  {
    DropTrailingEmpty(DropLeadingEmpty(parts))
  }

  /** Joining one more piece at the end adds a separator and the piece. */
  lemma {:induction false} JoinSnoc(parts: seq<String>, x: String, sep: char)
    requires |parts| >= 1
    ensures Join(parts + [x], sep) == Join(parts, sep) + [sep] + x
  {
    if |parts| > 1 {
      assert (parts + [x])[1..] == parts[1..] + [x];
      JoinSnoc(parts[1..], x, sep);
    }
  }

  /** Stripping separators off the front of joined pieces drops the leading
      empty pieces. */
  lemma {:induction false} TrimStartJoin(parts: seq<String>, sep: char)
    requires forall k :: 0 <= k < |parts| ==> sep !in parts[k]
    ensures TrimStart(Join(parts, sep), Only(sep)) == Join(DropLeadingEmpty(parts), sep)
    ensures forall k :: 0 <= k < |DropLeadingEmpty(parts)| ==> sep !in DropLeadingEmpty(parts)[k]
  {
    if |parts| >= 1 && parts[0] != [] {
      JoinFirst(parts, sep);
      assert DropLeadingEmpty(parts) == parts;
      assert TrimStart(Join(parts, sep), Only(sep)) == Join(parts, sep);
    } else if |parts| >= 2 {
      var j := Join(parts[1..], sep);
      assert TrimStart(Join(parts, sep), Only(sep)) == TrimStart(j, Only(sep)) by {
        assert Join(parts, sep) == [sep] + j;
        assert ([sep] + j)[1..] == j;
        TrimStartStep([sep] + j, Only(sep));
      }
      assert DropLeadingEmpty(parts) == DropLeadingEmpty(parts[1..]);
      TrimStartJoin(parts[1..], sep);
    } else {
      assert Join(parts, sep) == [] && DropLeadingEmpty(parts) == [];
    }
  }

  /** Stripping separators off the back of joined pieces drops the trailing
      empty pieces. */
  lemma {:induction false} TrimEndJoin(parts: seq<String>, sep: char)
    requires forall k :: 0 <= k < |parts| ==> sep !in parts[k]
    ensures TrimEnd(Join(parts, sep), Only(sep)) == Join(DropTrailingEmpty(parts), sep)
    ensures forall k :: 0 <= k < |DropTrailingEmpty(parts)| ==> sep !in DropTrailingEmpty(parts)[k]
  {
    if |parts| >= 1 && parts[|parts| - 1] != [] {
      JoinLast(parts, sep);
    } else if |parts| >= 2 {
      var init := parts[..|parts| - 1];
      assert parts == init + [[]];
      assert DropTrailingEmpty(parts) == DropTrailingEmpty(init);
      JoinSnoc(init, [], sep);
      var j := Join(init, sep) + [sep];
      assert Join(parts, sep) == j;
      assert j[..|j| - 1] == Join(init, sep);
      TrimEndStep(j, Only(sep));
      TrimEndJoin(init, sep);
    }
  }

  /** `strip(sep)` of joined pieces is the join of the pieces without the
      empty ones at either end. */
  lemma {:induction false} StripJoin(parts: seq<String>, sep: char)
    requires forall k :: 0 <= k < |parts| ==> sep !in parts[k]
    ensures Strip(Join(parts, sep), Only(sep)) == Join(TrimEmpty(parts), sep)
    ensures forall k :: 0 <= k < |TrimEmpty(parts)| ==> sep !in TrimEmpty(parts)[k]
  {
    TrimStartJoin(parts, sep);
    TrimEndJoin(DropLeadingEmpty(parts), sep);
  }

  /** A string padded on both sides with characters of class `cls`, whose own
      ends are not of that class, strips back to itself. */
  lemma {:induction false} StripPadded(lead: String, s: String, trail: String, cls: CharClass)
    requires forall i :: 0 <= i < |lead| ==> InClass(lead[i], cls)
    requires forall i :: 0 <= i < |trail| ==> InClass(trail[i], cls)
    requires s == [] || (!InClass(s[0], cls) && !InClass(s[|s| - 1], cls))
    ensures Strip(lead + s + trail, cls) == s
  {
    PaddedTrimStart(lead, s, trail, cls);
    if s != [] {
      TrimEndPadded(s, trail, cls);
    }
  }

  /** Trimming the front of a padded string leaves the string and its
      trailing padding, or nothing when the string is empty. */
  lemma {:induction false} PaddedTrimStart(lead: String, s: String, trail: String, cls: CharClass)
    requires forall i :: 0 <= i < |lead| ==> InClass(lead[i], cls)
    requires forall i :: 0 <= i < |trail| ==> InClass(trail[i], cls)
    requires s == [] || !InClass(s[0], cls)
    ensures TrimStart(lead + s + trail, cls) == if s == [] then [] else s + trail
  {
    assert lead + s + trail == lead + (s + trail);
    TrimStartPadded(lead, s + trail, cls);
    if s == [] {
      assert s + trail == trail + s;
      TrimStartPadded(trail, s, cls);
    } else {
      assert (s + trail)[0] == s[0];
    }
  }

  /** Leading characters of the class are all stripped. */
  lemma {:induction false} TrimStartPadded(lead: String, s: String, cls: CharClass)
    requires forall i :: 0 <= i < |lead| ==> InClass(lead[i], cls)
    ensures TrimStart(lead + s, cls) == TrimStart(s, cls)
  {
    if lead != [] {
      var u := lead + s;
      assert TrimStart(u, cls) == TrimStart(lead[1..] + s, cls) by {
        assert u[0] == lead[0] && InClass(lead[0], cls);
        assert u[1..] == lead[1..] + s;
        TrimStartStep(u, cls);
      }
      TrimStartPadded(lead[1..], s, cls);
    } else {
      assert lead + s == s;
    }
  }

  /** Trailing characters of the class are all stripped. */
  lemma {:induction false} TrimEndPadded(s: String, trail: String, cls: CharClass)
    requires forall i :: 0 <= i < |trail| ==> InClass(trail[i], cls)
    ensures TrimEnd(s + trail, cls) == TrimEnd(s, cls)
    decreases |trail|
  {
    if trail != [] {
      var u := s + trail;
      assert u[|u| - 1] == trail[|trail| - 1] && InClass(trail[|trail| - 1], cls);
      assert u[..|u| - 1] == s + trail[..|trail| - 1];
      TrimEndStep(u, cls);
      TrimEndPadded(s, trail[..|trail| - 1], cls);
    } else {
      assert s + trail == s;
    }
  }

  /** The longest prefix of `s` that does not contain `c`. */
  function TakeUntil(s: String, c: char): (r: String)
    ensures r <= s && c !in r
    ensures |r| == |s| || s[|r|] == c
  {
    if s == [] || s[0] == c then [] else [s[0]] + TakeUntil(s[1..], c)
  }

  /** The host of `host/rest` is `host` when it holds no slash. */
  lemma {:induction false} TakeUntilPrefix(a: String, b: String, c: char)
    requires c !in a
    ensures TakeUntil(a + [c] + b, c) == a
  {
    if a == [] {
      assert (a + [c] + b)[0] == c;
    } else {
      assert (a + [c] + b)[1..] == a[1..] + [c] + b;
      TakeUntilPrefix(a[1..], b, c);
    }
  }

  /** Python's `s.endswith(c)` for a one-character suffix: `s` is some
      string followed by `c`. */
  predicate EndsWith(s: String, c: char)
    ensures EndsWith(s, c) <==> s != [] && s == s[..|s| - 1] + [c]
  {
    |s| > 0 && s[|s| - 1] == c
  }
}
