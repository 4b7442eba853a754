/**
 * The naming rules of the migration tool: title-casing snake-case table
 * and column names into Go identifiers, the one-letter singularisation of
 * struct names, and `extractTableName`, which reads a table name back out of
 * a migration function name with the pattern `Up\d+([A-Za-z]+)`.
 */
module Naming {
  import opened Wrappers
  import opened Strs
  import opened Strconv

  /**
   * An ASCII approximation of `cases.Title(language.English).String(s)` in
   * which a word starts only at the beginning of the text or after a space:
   * the character that starts a word is upper-cased and every other letter
   * lower-cased. Unicode title-casing also starts a word at other
   * boundaries, after a digit run or punctuation, which this does not.
   */
  function Title(s: string): (r: string)
    ensures |r| == |s|
    ensures forall i :: 0 <= i < |s| ==> r[i] == TitleChar(s, i)
    ensures ToLower(r) == ToLower(s)
    ensures forall i :: 0 <= i < |s| && (i == 0 || s[i - 1] == ' ') ==> !IsAsciiLower(r[i])
    ensures forall i :: 0 < i < |s| && s[i - 1] != ' ' ==> !IsAsciiUpper(r[i])
  {
    var r := seq(|s|, i requires 0 <= i < |s| => TitleChar(s, i));
    assert ToLower(r) == ToLower(s) by {
      forall i | 0 <= i < |s| ensures ToLower(r)[i] == ToLower(s)[i] {
        CaseChar(s[i]);
      }
    }
    assert forall i :: 0 <= i < |s| ==> !IsAsciiLower(UpperChar(s[i])) && !IsAsciiUpper(LowerChar(s[i])) by {
      forall i | 0 <= i < |s| ensures !IsAsciiLower(UpperChar(s[i])) && !IsAsciiUpper(LowerChar(s[i])) {
        CaseChar(s[i]);
      }
    }
    r
  }

  /** Character `i` of the title-cased text: upper case at the start of a word, lower case elsewhere. */
  function TitleChar(s: string, i: nat): char
    requires i < |s|
  {
    if i == 0 || s[i - 1] == ' ' then UpperChar(s[i]) else LowerChar(s[i])
  }

  /** Upper- and lower-casing a character agree up to case, and leave no letter of the other case. */
  lemma CaseChar(c: char)
    ensures LowerChar(UpperChar(c)) == LowerChar(c) && LowerChar(LowerChar(c)) == LowerChar(c)
    ensures !IsAsciiLower(UpperChar(c)) && !IsAsciiUpper(LowerChar(c))
  {
  }

  /**
   * Underscores become word breaks, words are title-cased, and the spaces
   * are dropped: `user_roles` to `UserRoles`. No space or underscore is left.
   */
  function Pascal(s: string): (r: string)
    ensures ' ' !in r && '_' !in r
    ensures |r| <= |s|
  {
    var t := Title(ReplaceChar(s, '_', ' '));
    assert '_' !in t;
    RemoveChar(t, ' ')
  }

  /** One trailing `s` is removed, when there is one. */
  function Singular(s: string): (r: string)
    ensures HasSuffix(s, "s") ==> r + "s" == s
    ensures !HasSuffix(s, "s") ==> r == s
  {
    if HasSuffix(s, "s") then s[..|s| - 1] else s
  }

  /** The struct name generated for a table: `users` to `User`, `user_roles` to `UserRole`. */
  function StructName(table: string): (r: string)
    ensures ' ' !in r && '_' !in r
    ensures r == Pascal(table) || r + "s" == Pascal(table)
  {
    Singular(Pascal(table))
  }

  predicate AllLower(s: string) {
    forall i :: 0 <= i < |s| ==> IsAsciiLower(s[i])
  }

  predicate AllLetters(s: string) {
    forall i :: 0 <= i < |s| ==> IsAsciiLetter(s[i])
  }

  /** A single lower-case word gets its first letter capitalised and nothing else changed. */
  lemma PascalWord(w: string)
    requires |w| > 0 && AllLower(w)
    ensures Pascal(w) == [UpperChar(w[0])] + w[1..]
  {
    assert ReplaceChar(w, '_', ' ') == w;
    TitleLowerWord(w);
    var t := Title(w);
    assert ' ' !in t by {
      forall i | 0 <= i < |t| ensures t[i] != ' ' {
        if i > 0 { assert t[i] == w[i]; }
      }
    }
    RemoveCharAbsent(t, ' ');
  }

  /** Lower-casing the Pascal form of a lower-case word gives the word back. */
  lemma PascalWordLower(w: string)
    requires |w| > 0 && AllLower(w)
    ensures AllLetters(Pascal(w)) && ToLower(Pascal(w)) == w
  {
    PascalWord(w);
  }

  /** Title-casing a lower-case word capitalises its first letter only. */
  lemma TitleLowerWord(w: string)
    requires |w| > 0 && AllLower(w)
    ensures Title(w) == Capitalized(w)
  {
    forall i | 0 <= i < |w| ensures Title(w)[i] == Capitalized(w)[i] {
      if i > 0 {
        assert w[i - 1] != ' ' && LowerChar(w[i]) == w[i];
      }
    }
  }

  /** Title-casing treats the text on either side of a space separately. */
  lemma TitleSpace(x: string, y: string)
    requires |x| > 0
    ensures Title(x + " " + y) == Title(x) + " " + Title(y)
  {
    var s := x + " " + y;
    var t := Title(x) + " " + Title(y);
    assert |t| == |s|;
    forall i | 0 <= i < |s| ensures Title(s)[i] == t[i] {
      if i < |x| {
        TitleCharShift(s, i, x, i);
        assert t[i] == Title(x)[i];
      } else if i == |x| {
        assert s[i] == ' ' && UpperChar(' ') == ' ' && LowerChar(' ') == ' ';
        assert t[i] == ' ';
      } else {
        var j := i - |x| - 1;
        TitleCharShift(s, i, y, j);
        assert t[i] == Title(y)[j];
      }
    }
  }

  /** Two positions holding the same character, each at a word start or each inside a word, title-case alike. */
  lemma TitleCharShift(s: string, i: nat, x: string, j: nat)
    requires i < |s| && j < |x| && s[i] == x[j]
    requires (i == 0 || s[i - 1] == ' ') <==> (j == 0 || x[j - 1] == ' ')
    ensures TitleChar(s, i) == TitleChar(x, j)
  {
  }

  lemma RemoveTrailingSpace(a: string)
    ensures RemoveChar(a + " ", ' ') == RemoveChar(a, ' ')
  {
    RemoveCharAppend(a, " ", ' ');
    assert RemoveChar(" ", ' ') == "";
  }

  /** Dropping the single space between two space-free words joins them. */
  lemma RemoveSpaceBetween(a: string, b: string)
    requires ' ' !in a && ' ' !in b
    ensures RemoveChar(a + " " + b, ' ') == a + b
  {
    RemoveCharAppend(a + " ", b, ' ');
    RemoveTrailingSpace(a);
    RemoveCharAbsent(a, ' ');
    RemoveCharAbsent(b, ' ');
  }

  /** A word with its first letter capitalised. */
  function Capitalized(w: string): string
    requires |w| > 0
  {
    [UpperChar(w[0])] + w[1..]
  }

  /** A capitalised lower-case word holds no space. */
  lemma SpaceFreeCapitalized(w: string)
    requires |w| > 0 && AllLower(w)
    ensures ' ' !in Capitalized(w)
  {
    var c := Capitalized(w);
    forall i | 0 <= i < |c| ensures c[i] != ' ' {
      if i > 0 { assert c[i] == w[i]; }
    }
  }

  /** Two capitalised lower-case words are all letters, and lower-casing them gives the words run together. */
  lemma CapitalizedPair(a: string, b: string)
    requires |a| > 0 && AllLower(a) && |b| > 0 && AllLower(b)
    ensures AllLetters(Capitalized(a) + Capitalized(b))
    ensures ToLower(Capitalized(a) + Capitalized(b)) == a + b
  {
    var p := Capitalized(a) + Capitalized(b);
    forall i | 0 <= i < |p| ensures IsAsciiLetter(p[i]) && LowerChar(p[i]) == (a + b)[i] {
      if i < |a| {
        assert p[i] == if i == 0 then UpperChar(a[0]) else a[i];
      } else {
        assert p[i] == if i == |a| then UpperChar(b[0]) else b[i - |a|];
      }
    }
  }

  /** Two snake-case words run together, each capitalised: `user_roles` becomes `UserRoles`. */
  lemma PascalTwoWords(a: string, b: string)
    requires |a| > 0 && AllLower(a) && |b| > 0 && AllLower(b)
    ensures Pascal(a + "_" + b) == Capitalized(a) + Capitalized(b)
  {
    var s := a + "_" + b;
    var spaced := a + " " + b;
    assert ReplaceChar(s, '_', ' ') == spaced by {
      forall i | 0 <= i < |s| ensures ReplaceChar(s, '_', ' ')[i] == spaced[i] {
        if i < |a| {
          assert s[i] == a[i] && spaced[i] == a[i];
        } else if i > |a| {
          assert s[i] == b[i - |a| - 1] && spaced[i] == b[i - |a| - 1];
        }
      }
    }
    TitleSpace(a, b);
    TitleLowerWord(a);
    TitleLowerWord(b);
    SpaceFreeCapitalized(a);
    SpaceFreeCapitalized(b);
    RemoveSpaceBetween(Capitalized(a), Capitalized(b));
  }

  /**
   * The struct name of a plural table `<w>s` of one lower-case word is `w`
   * capitalised: `users` gives `User`, and `status` gives `Statu`, because
   * any trailing `s` is taken for a plural.
   */
  lemma StructNamePlural(w: string)
    requires |w| > 0 && AllLower(w)
    ensures StructName(w + "s") == Capitalized(w)
  {
    var ws := w + "s";
    assert AllLower(ws) by {
      forall i | 0 <= i < |ws| ensures IsAsciiLower(ws[i]) {
        if i < |w| { assert ws[i] == w[i]; }
      }
    }
    PascalWord(ws);
    var p := Pascal(ws);
    assert p == Capitalized(w) + "s" by {
      assert ws[1..] == w[1..] + "s";
    }
    assert HasSuffix(p, "s");
    assert p[..|p| - 1] == Capitalized(w);
  }

  /** Singularising and adding an `s` back gives a name ending in `s` back, and `Singular` never removes more than that `s`. */
  lemma SingularRoundTrip(s: string)
    ensures Singular(s + "s") == s
    ensures |Singular(s)| >= |s| - 1 && Singular(s) == s[..|Singular(s)|]
  {
    assert HasSuffix(s + "s", "s");
    assert (s + "s")[..|s|] == s;
  }

  /** The length of the run of decimal digits starting at `i`. */
  function DigitRun(s: string, i: nat): (n: nat)
    requires i <= |s|
    ensures i + n <= |s|
    ensures forall k :: i <= k < i + n ==> IsDigit(s[k])
    ensures i + n == |s| || !IsDigit(s[i + n])
    decreases |s| - i
  {
    if i < |s| && IsDigit(s[i]) then 1 + DigitRun(s, i + 1) else 0
  }

  /** The length of the run of ASCII letters starting at `i`. */
  function LetterRun(s: string, i: nat): (n: nat)
    requires i <= |s|
    ensures i + n <= |s|
    ensures forall k :: i <= k < i + n ==> IsAsciiLetter(s[k])
    ensures i + n == |s| || !IsAsciiLetter(s[i + n])
    decreases |s| - i
  {
    if i < |s| && IsAsciiLetter(s[i]) then 1 + LetterRun(s, i + 1) else 0
  }

  /**
   * The submatch of `Up\d+([A-Za-z]+)` for a match starting at `i`: `Up`,
   * the whole digit run (a letter must follow it, so the greedy `\d+` cannot
   * give any back), then the longest run of letters.
   */
  function MatchAt(s: string, i: nat): (r: Option<string>)
    requires i <= |s|
    ensures r.Some? ==> |r.value| > 0 && AllLetters(r.value)
  {
    if i + 2 <= |s| && s[i] == 'U' && s[i + 1] == 'p' then
      var d := DigitRun(s, i + 2);
      var l := LetterRun(s, i + 2 + d);
      if d == 0 || l == 0 then None else Some(s[i + 2 + d..i + 2 + d + l])
    else None
  }

  /** The leftmost match starting at or after `i`, as `FindStringSubmatch` reports it. */
  function FindMatch(s: string, i: nat): (r: Option<string>)
    requires i <= |s|
    ensures r.Some? ==> |r.value| > 0 && AllLetters(r.value)
    decreases |s| - i
  {
    if MatchAt(s, i).Some? then MatchAt(s, i)
    else if i < |s| then FindMatch(s, i + 1)
    else None
  }

  /** `extractTableName`: the lower-cased letter group of the leftmost match, or "" when the name does not match. */
  function ExtractTableName(migrationName: string): (r: string)
    ensures FindMatch(migrationName, 0).Some? ==> |r| > 0 && AllLetters(r)
  {
    match FindMatch(migrationName, 0)
    case Some(m) => ToLower(m)
    case None => ""
  }

  /** The leftmost match: no match starts before `k`, and the one at `k` is reported. */
  lemma {:induction false} FindMatchLeftmost(s: string, i: nat, k: nat)
    requires i <= k <= |s| && MatchAt(s, k).Some?
    requires forall k' :: i <= k' < k ==> MatchAt(s, k').None?
    ensures FindMatch(s, i) == MatchAt(s, k)
    decreases k - i
  {
    if i < k {
      FindMatchLeftmost(s, i + 1, k);
    }
  }

  /** No position matches exactly when `FindMatch` reports nothing. */
  lemma {:induction false} FindMatchNone(s: string, i: nat)
    requires i <= |s|
    ensures FindMatch(s, i).None? <==> forall k :: i <= k <= |s| ==> MatchAt(s, k).None?
    decreases |s| - i
  {
    if i < |s| {
      FindMatchNone(s, i + 1);
    }
  }

  /**
   * `extractTableName` returns "" exactly when the pattern matches nowhere,
   * and otherwise the lower-cased letters of the leftmost match.
   */
  lemma ExtractTableNameSpec(s: string, k: nat)
    requires k <= |s|
    ensures ExtractTableName(s) == "" <==> forall k' :: 0 <= k' <= |s| ==> MatchAt(s, k').None?
    ensures MatchAt(s, k).Some? && (forall k' :: 0 <= k' < k ==> MatchAt(s, k').None?) ==>
      ExtractTableName(s) == ToLower(MatchAt(s, k).value)
  {
    FindMatchNone(s, 0);
    if MatchAt(s, k).Some? && (forall k' :: 0 <= k' < k ==> MatchAt(s, k').None?) {
      FindMatchLeftmost(s, 0, k);
    }
  }

  lemma {:induction false} DigitRunExact(s: string, i: nat, n: nat)
    requires i + n <= |s| && (forall k :: i <= k < i + n ==> IsDigit(s[k]))
    requires i + n == |s| || !IsDigit(s[i + n])
    ensures DigitRun(s, i) == n
    decreases n
  {
    if n > 0 {
      DigitRunExact(s, i + 1, n - 1);
    }
  }

  lemma {:induction false} LetterRunExact(s: string, i: nat, n: nat)
    requires i + n <= |s| && (forall k :: i <= k < i + n ==> IsAsciiLetter(s[k]))
    requires i + n == |s| || !IsAsciiLetter(s[i + n])
    ensures LetterRun(s, i) == n
    decreases n
  {
    if n > 0 {
      LetterRunExact(s, i + 1, n - 1);
    }
  }

  /** `Up`, a digit run and a letter run match at the start, capturing the letters. */
  lemma MatchAtUpDigitsLetters(ts: string, name: string)
    requires |ts| > 0 && AllDigits(ts) && |name| > 0 && AllLetters(name)
    ensures MatchAt("Up" + ts + name, 0) == Some(name)
  {
    var s := "Up" + ts + name;
    var e := 2 + |ts|;
    forall k | 2 <= k < e ensures IsDigit(s[k]) {
      assert s[k] == ts[k - 2];
    }
    assert s[e] == name[0];
    DigitRunExact(s, 2, |ts|);
    forall k | e <= k < |s| ensures IsAsciiLetter(s[k]) {
      assert s[k] == name[k - e];
    }
    LetterRunExact(s, e, |name|);
    assert s[0] == 'U' && s[1] == 'p';
    assert |s| == e + |name| && s[e..e + |name|] == name;
  }

  /** A migration name `Up<digits><letters>` yields its letters, lower-cased. */
  lemma ExtractTableNameOf(ts: string, name: string)
    requires |ts| > 0 && AllDigits(ts) && |name| > 0 && AllLetters(name)
    ensures ExtractTableName("Up" + ts + name) == ToLower(name)
  {
    MatchAtUpDigitsLetters(ts, name);
    assert FindMatch("Up" + ts + name, 0) == Some(name);
  }

  /** After a `Down` prefix, `Up`, a digit run and a letter run match at position 4, capturing the letters. */
  lemma MatchAtDownUp(ts: string, name: string)
    requires |ts| > 0 && AllDigits(ts) && |name| > 0 && AllLetters(name)
    ensures MatchAt("Down" + ("Up" + ts + name), 4) == Some(name)
  {
    var u := "Up" + ts + name;
    var s := "Down" + u;
    var e := 6 + |ts|;
    assert |s| == e + |name|;
    forall k | 6 <= k < e ensures IsDigit(s[k]) {
      assert s[k] == u[k - 4] == ts[k - 6];
    }
    assert s[e] == u[e - 4] == name[0];
    DigitRunExact(s, 6, |ts|);
    forall k | e <= k < |s| ensures IsAsciiLetter(s[k]) {
      assert s[k] == u[k - 4] == name[k - e];
    }
    LetterRunExact(s, e, |name|);
    assert s[4] == 'U' && s[5] == 'p';
    assert s[e..e + |name|] == name by {
      assert s[e..] == name;
    }
  }

  /** No match starts inside a `Down` prefix: it holds no `U`. */
  lemma DownNoMatch(u: string)
    ensures forall k :: 0 <= k < 4 ==> MatchAt("Down" + u, k).None?
  {
    forall k | 0 <= k < 4 ensures MatchAt("Down" + u, k).None? {
      assert ("Down" + u)[k] == "Down"[k];
    }
  }

  /**
   * The `Down` function of a generated migration is named `Down` followed by
   * its `Up` name. The pattern is not anchored, so that name matches at the
   * `Up` and yields the same table name as the `Up` name itself.
   */
  lemma ExtractTableNameDownUp(ts: string, name: string)
    requires |ts| > 0 && AllDigits(ts) && |name| > 0 && AllLetters(name)
    ensures ExtractTableName("Down" + ("Up" + ts + name)) == ToLower(name)
    ensures ExtractTableName("Down" + ("Up" + ts + name)) == ExtractTableName("Up" + ts + name)
  {
    var s := "Down" + ("Up" + ts + name);
    MatchAtDownUp(ts, name);
    DownNoMatch("Up" + ts + name);
    ExtractTableNameSpec(s, 4);
    ExtractTableNameOf(ts, name);
  }

  /** A name without `Up<digits><letters>` anywhere, such as `DownUsers`, does not match. */
  lemma ExtractTableNameDown()
    ensures ExtractTableName("DownUsers") == ""
  {
    forall k | 0 <= k <= |"DownUsers"| ensures MatchAt("DownUsers", k).None? {
      if k + 1 < |"DownUsers"| {
        assert !("DownUsers"[k] == 'U' && "DownUsers"[k + 1] == 'p');
      }
    }
    ExtractTableNameSpec("DownUsers", 0);
  }

  /** The letters after the first: each upper-case letter starts a new snake-case word. */
  function SnakeRest(s: string): string {
    if |s| == 0 then ""
    else (if IsAsciiUpper(s[0]) then "_" + [LowerChar(s[0])] else [LowerChar(s[0])]) + SnakeRest(s[1..])
  }

  /** The snake-case form of a Pascal-case name, `UserRoles` to `user_roles`: the inverse of `Pascal` on snake-case names. */
  function Snake(s: string): string {
    if |s| == 0 then "" else [LowerChar(s[0])] + SnakeRest(s[1..])
  }

  /**
   * The table-name extraction `resetDatabase` evidently intends: the letter
   * group of the leftmost match turned back into the snake-case table name
   * the migration was generated from, or "" when the name does not match.
   */
  function ExtractSnakeTableName(migrationName: string): (r: string)
    ensures FindMatch(migrationName, 0).None? ==> r == ""
  {
    match FindMatch(migrationName, 0)
    case Some(m) => Snake(m)
    case None => ""
  }

  lemma {:induction false} SnakeRestAppend(a: string, b: string)
    ensures SnakeRest(a + b) == SnakeRest(a) + SnakeRest(b)
    decreases |a|
  {
    if |a| == 0 {
      assert a + b == b;
    } else {
      assert (a + b)[0] == a[0];
      assert (a + b)[1..] == a[1..] + b;
      SnakeRestAppend(a[1..], b);
    }
  }

  lemma {:induction false} SnakeRestLower(w: string)
    requires AllLower(w)
    ensures SnakeRest(w) == w
    decreases |w|
  {
    if |w| > 0 {
      SnakeRestLower(w[1..]);
      assert [w[0]] + w[1..] == w;
    }
  }

  /** A capitalised lower-case word turns back into the word. */
  lemma SnakeCapitalized(w: string)
    requires |w| > 0 && AllLower(w)
    ensures Snake(Capitalized(w)) == w
    ensures SnakeRest(Capitalized(w)) == "_" + w
  {
    var c := Capitalized(w);
    assert c[0] == UpperChar(w[0]) && IsAsciiUpper(c[0]) && LowerChar(c[0]) == w[0];
    assert c[1..] == w[1..];
    SnakeRestLower(w[1..]);
    assert [w[0]] + w[1..] == w;
  }

  /** `Snake` inverts `Pascal` on a name of one lower-case word. */
  lemma SnakePascalWord(w: string)
    requires |w| > 0 && AllLower(w)
    ensures Snake(Pascal(w)) == w
  {
    PascalWord(w);
    SnakeCapitalized(w);
  }

  lemma SnakeCapitalizedPair(a: string, b: string)
    requires |a| > 0 && AllLower(a) && |b| > 0 && AllLower(b)
    ensures Snake(Capitalized(a) + Capitalized(b)) == a + "_" + b
  {
    SnakeAppend(Capitalized(a), Capitalized(b));
    SnakeCapitalized(a);
    SnakeCapitalized(b);
  }

  /** Appending to a non-empty name appends the snake-case rendering of the rest. */
  lemma SnakeAppend(x: string, y: string)
    requires |x| > 0
    ensures Snake(x + y) == Snake(x) + SnakeRest(y)
  {
    assert (x + y)[0] == x[0];
    assert (x + y)[1..] == x[1..] + y;
    SnakeRestAppend(x[1..], y);
  }

  /** `Snake` inverts `Pascal` on a snake-case name of two lower-case words. */
  lemma SnakePascalTwoWords(a: string, b: string)
    requires |a| > 0 && AllLower(a) && |b| > 0 && AllLower(b)
    ensures Snake(Pascal(a + "_" + b)) == a + "_" + b
  {
    PascalTwoWords(a, b);
    SnakeCapitalizedPair(a, b);
  }
}
