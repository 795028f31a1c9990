/**
 * String handling of the tracker: `clean_number`, the `split("\n")[0]`
 * that takes a coin's display name, and the `lower()` used on yes/no answers.
 */
module Text {
  import opened Common

  /** Python's `str.isspace()` on one character: what `str.strip()` with no argument trims. */
  predicate IsSpace(c: char)
  {
    ('\t' <= c <= '\r') || ('\U{1C}' <= c <= ' ') || c == '\U{85}' || c == '\U{A0}'
    || c == '\U{1680}' || ('\U{2000}' <= c <= '\U{200A}') || c == '\U{2028}' || c == '\U{2029}'
    || c == '\U{202F}' || c == '\U{205F}' || c == '\U{3000}'
  }

  /** The characters `clean_number` deletes: currency sign, thousands separator, percent sign, newline. */
  predicate IsSymbol(c: char)
  {
    c == '$' || c == ',' || c == '%' || c == '\n'
  }

  /** `s.replace(c, "")`: s with every occurrence of c deleted. */
  function Delete(s: string, c: char): (r: string)
    ensures |r| <= |s|
    ensures IsSubsequence(r, s)
    ensures multiset(r) == multiset(s)[c := 0]
    ensures forall d :: d in r <==> d in s && d != c
  {
    if s == [] then []
    else
      assert s == [s[0]] + s[1..];
      if s[0] == c then Delete(s[1..], c)
      else [s[0]] + Delete(s[1..], c)
  }

  /** The first index at or after i that does not hold whitespace (|s| when there is none). */
  function SkipSpaces(s: string, i: nat): (j: nat)
    requires i <= |s|
    ensures i <= j <= |s|
    ensures forall k :: i <= k < j ==> IsSpace(s[k])
    ensures j == |s| || !IsSpace(s[j])
    decreases |s| - i
  {
    if i < |s| && IsSpace(s[i]) then SkipSpaces(s, i + 1) else i
  }

  /** The end of s[i..j] once its trailing whitespace is dropped. */
  function TrimSpaces(s: string, i: nat, j: nat): (e: nat)
    requires i <= j <= |s|
    ensures i <= e <= j
    ensures forall k :: e <= k < j ==> IsSpace(s[k])
    ensures e == i || !IsSpace(s[e - 1])
    decreases j
  {
    if i < j && IsSpace(s[j - 1]) then TrimSpaces(s, i, j - 1) else j
  }

  /** `s.strip()`: s without its leading and trailing whitespace; it neither starts nor ends with a space. */
  function Strip(s: string): (r: string)
    ensures |r| <= |s|
    ensures r == [] || (!IsSpace(r[0]) && !IsSpace(r[|r| - 1]))
  {
    var i := SkipSpaces(s, 0);
    var e := TrimSpaces(s, i, |s|);
    assert e == i || s[i] == s[i..e][0];
    s[i..e]
  }

  /**
   * What strip keeps: the slice of s that starts after its leading whitespace
   * and ends before its trailing whitespace.
   */
  lemma StripIsTrimmedSlice(s: string)
    ensures exists i, e ::
              && 0 <= i <= e <= |s| && Strip(s) == s[i..e]
              && (forall k :: 0 <= k < i ==> IsSpace(s[k]))
              && (forall k :: e <= k < |s| ==> IsSpace(s[k]))
  {
    var i := SkipSpaces(s, 0);
    var e := TrimSpaces(s, i, |s|);
    assert Strip(s) == s[i..e];
  }

  lemma StripMembers(s: string)
    ensures forall c :: c in Strip(s) ==> c in s
  {
    var i := SkipSpaces(s, 0);
    var e := TrimSpaces(s, i, |s|);
    forall c | c in s[i..e] ensures c in s {
      var k :| 0 <= k < e - i && s[i..e][k] == c;
      assert s[i + k] == c;
    }
  }

  /** The four `replace` calls of `clean_number`, in the order `clean_number` makes them. */
  function DeleteSymbols(text: string): (s: string)
    ensures |s| <= |text|
    ensures forall c :: c in s ==> c in text && !IsSymbol(c)
  {
    Delete(Delete(Delete(Delete(text, '$'), ','), '%'), '\n')
  }

  /** `clean_number(text)`: delete the four symbols, then strip surrounding whitespace. */
  function CleanNumber(text: string): (r: string)
    ensures |r| <= |text|
    ensures forall c :: c in r ==> c in text && !IsSymbol(c)
    ensures r == [] || (!IsSpace(r[0]) && !IsSpace(r[|r| - 1]))
  {
    StripMembers(DeleteSymbols(text));
    Strip(DeleteSymbols(text))
  }

  /** Reference definition: one pass that keeps every character `clean_number` does not delete. */
  function KeepNonSymbols(s: string): (r: string)
  {
    if s == [] then [] else (if IsSymbol(s[0]) then [] else [s[0]]) + KeepNonSymbols(s[1..])
  }

  /** The four chained deletions remove exactly the symbol characters, in a single pass. */
  lemma {:induction false} DeletionsKeepNonSymbols(s: string)
    ensures DeleteSymbols(s) == KeepNonSymbols(s)
    decreases |s|
  {
    if s != [] {
      DeletionsKeepNonSymbols(s[1..]);
      var d1 := Delete(s[1..], '$');
      var d2 := Delete(d1, ',');
      var d3 := Delete(d2, '%');
      if s[0] != '$' {
        assert Delete(s, '$') == [s[0]] + d1;
        if s[0] != ',' {
          assert Delete([s[0]] + d1, ',') == [s[0]] + d2;
          if s[0] != '%' {
            assert Delete([s[0]] + d2, '%') == [s[0]] + d3;
            if s[0] != '\n' {
              assert Delete([s[0]] + d3, '\n') == [s[0]] + Delete(d3, '\n');
            } else {
              assert Delete([s[0]] + d3, '\n') == Delete(d3, '\n');
            }
          } else {
            assert Delete([s[0]] + d2, '%') == d3;
          }
        } else {
          assert Delete([s[0]] + d1, ',') == d2;
        }
      }
    }
  }

  /** clean_number is "delete the four symbols, then strip whitespace". */
  lemma CleanNumberIsStripOfKept(text: string)
    ensures CleanNumber(text) == Strip(KeepNonSymbols(text))
  {
    DeletionsKeepNonSymbols(text);
  }

  /** Deleting a character that does not occur changes nothing. */
  lemma {:induction false} DeleteAbsent(s: string, c: char)
    requires c !in s
    ensures Delete(s, c) == s
    decreases |s|
  {
    if s != [] {
      assert c !in s[1..];
      DeleteAbsent(s[1..], c);
    }
  }

  /** A string with no symbol and no outer whitespace is already clean. */
  lemma CleanNumberFixesClean(s: string)
    requires forall c :: c in s ==> !IsSymbol(c)
    requires s == [] || (!IsSpace(s[0]) && !IsSpace(s[|s| - 1]))
    ensures CleanNumber(s) == s
  {
    DeleteAbsent(s, '$');
    DeleteAbsent(s, ',');
    DeleteAbsent(s, '%');
    DeleteAbsent(s, '\n');
  }

  /** clean_number is idempotent. */
  lemma CleanNumberIdempotent(text: string)
    ensures CleanNumber(CleanNumber(text)) == CleanNumber(text)
  {
    CleanNumberFixesClean(CleanNumber(text));
  }

  /** head is the text of s before its first sep, or all of s when sep does not occur. */
  predicate IsFirstPiece(head: string, s: string, sep: char)
  {
    |head| <= |s| && head == s[..|head|] && sep !in head && (|head| == |s| || s[|head|] == sep)
  }

  /** `s.split(sep)` for a one-character separator: the pieces between the separators, at least one. */
  function Split(s: string, sep: char): (r: seq<string>)
    ensures |r| >= 1
    ensures forall k :: 0 <= k < |r| ==> sep !in r[k]
    ensures IsFirstPiece(r[0], s, sep)
  {
    if s == [] then [[]]
    else
      var rest := Split(s[1..], sep);
      if s[0] == sep then [[]] + rest
      else
        assert forall k :: 1 <= k < |rest| ==> ([[s[0]] + rest[0]] + rest[1..])[k] == rest[k];
        [[s[0]] + rest[0]] + rest[1..]
  }

  /** `sep.join(parts)`. */
  function Join(parts: seq<string>, sep: char): string
  {
    if parts == [] then []
    else if |parts| == 1 then parts[0]
    else parts[0] + [sep] + Join(parts[1..], sep)
  }

  /** Joining the pieces of a split with the same separator gives back the text. */
  lemma {:induction false} JoinSplit(s: string, sep: char)
    ensures Join(Split(s, sep), sep) == s
    decreases |s|
  {
    if s != [] {
      var rest := Split(s[1..], sep);
      JoinSplit(s[1..], sep);
      if s[0] != sep {
        var r := [[s[0]] + rest[0]] + rest[1..];
        assert r[1..] == rest[1..];
        if |rest| > 1 {
          assert Join(rest, sep) == rest[0] + [sep] + Join(rest[1..], sep);
        }
      }
    }
  }

  function LowerChar(c: char): char
  {
    if 'A' <= c <= 'Z' then (c as int + 32) as char else c
  }

  /** `s.lower()` on the ASCII letters. */
  function Lower(s: string): (r: string)
    ensures |r| == |s|
  {
    seq(|s|, k requires 0 <= k < |s| => LowerChar(s[k]))
  }

  /** The answer to a yes/no prompt is yes: `answer.lower() == "y"`. */
  predicate IsYes(answer: string)
  {
    Lower(answer) == "y"
  }

  /** Exactly "y" and "Y" are read as yes. */
  lemma IsYesExactly(answer: string)
    ensures IsYes(answer) <==> answer == "y" || answer == "Y"
  {
    if IsYes(answer) {
      assert Lower(answer)[0] == 'y';
      assert answer == [answer[0]];
    }
  }
}
