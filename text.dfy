/**
 * The handful of JavaScript string operations the composition engine relies on:
 * `indexOf`, `split`, `join`, `slice`, the `/\d+$/` and `/\sas\s/` patterns, and the
 * decimal spelling of numbers used for array and string index keys.
 */
module Text {
  import opened Wrappers

  /** `sep` occurs in `s` starting at position `i`. */
  predicate OccursAt(s: string, sep: string, i: nat)
  {
    i + |sep| <= |s| && s[i..i + |sep|] == sep
  }

  /** `sep` occurs nowhere in `s`. */
  predicate Free(s: string, sep: string)
  {
    forall j: nat :: j <= |s| ==> !OccursAt(s, sep, j)
  }

  lemma OccursAtTail(s: string, sep: string, j: nat)
    requires |s| > 0
    ensures OccursAt(s, sep, j + 1) <==> OccursAt(s[1..], sep, j)
  {
    if j + 1 + |sep| <= |s| {
      assert s[j + 1..j + 1 + |sep|] == s[1..][j..j + |sep|];
    }
  }

  /** `String.prototype.indexOf`: the first position at which `sep` occurs. */
  function IndexOf(s: string, sep: string): (r: Option<nat>)
    requires |sep| > 0
    ensures r.Some? ==> OccursAt(s, sep, r.value)
    ensures r.Some? ==> forall j: nat :: j < r.value ==> !OccursAt(s, sep, j)
    ensures r.None? ==> Free(s, sep)
    decreases |s|
  {
    if |s| < |sep| then None
    else if s[..|sep|] == sep then Some(0)
    else
      var rest := IndexOf(s[1..], sep);
      assert !OccursAt(s, sep, 0);
      match rest
      case None =>
        assert Free(s, sep) by {
          forall j: nat | 1 <= j <= |s| ensures !OccursAt(s, sep, j) {
            OccursAtTail(s, sep, j - 1);
          }
        }
        None
      case Some(i) =>
        OccursAtTail(s, sep, i);
        assert forall j: nat :: j < i + 1 ==> !OccursAt(s, sep, j) by {
          forall j: nat | 1 <= j < i + 1 ensures !OccursAt(s, sep, j) {
            OccursAtTail(s, sep, j - 1);
          }
        }
        Some(i + 1)
  }

  /** `parts.join(sep)`. */
  function Join(parts: seq<string>, sep: string): string
  {
    if |parts| == 0 then ""
    else if |parts| == 1 then parts[0]
    else parts[0] + sep + Join(parts[1..], sep)
  }

  /**
   * `s.split(sep)` for a non-empty separator: the pieces between successive
   * occurrences of `sep`, scanning left to right, always at least one piece.
   */
  function Split(s: string, sep: string): (parts: seq<string>)
    requires |sep| > 0
    ensures |parts| >= 1
    ensures Join(parts, sep) == s
    ensures forall k :: 0 <= k < |parts| ==> Free(parts[k], sep)
    decreases |s|
  {
    match IndexOf(s, sep)
    case None => [s]
    case Some(i) =>
      var rest := Split(s[i + |sep|..], sep);
      assert s == s[..i] + sep + s[i + |sep|..] by {
        assert s == s[..i] + s[i..i + |sep|] + s[i + |sep|..];
      }
      assert Free(s[..i], sep) by {
        forall j: nat | j <= i ensures !OccursAt(s[..i], sep, j) {
          if OccursAt(s[..i], sep, j) {
            assert s[..i][j..j + |sep|] == s[j..j + |sep|];
            assert OccursAt(s, sep, j);
          }
        }
      }
      [s[..i]] + rest
  }

  /** The first piece `p` of `p + sep + rest` is found again when `p` holds no first letter of `sep`. */
  lemma IndexOfAfterFree(p: string, sep: string, rest: string)
    requires |sep| > 0 && sep[0] !in p
    ensures IndexOf(p + sep + rest, sep) == Some(|p|)
  {
    var s := p + sep + rest;
    assert s[|p|..|p| + |sep|] == sep;
    forall j: nat | j < |p| ensures !OccursAt(s, sep, j) {
      assert s[j] == p[j] != sep[0];
      if j + |sep| <= |s| {
        assert s[j..j + |sep|][0] == s[j];
      }
    }
    assert OccursAt(s, sep, |p|);
  }

  lemma IndexOfFree(p: string, sep: string)
    requires |sep| > 0 && sep[0] !in p
    ensures IndexOf(p, sep) == None
  {
    forall j: nat | j <= |p| ensures !OccursAt(p, sep, j) {
      if j + |sep| <= |p| {
        assert p[j..j + |sep|][0] == p[j] != sep[0];
      }
    }
  }

  /** The first occurrence, identified by the occurrences it leaves out. */
  lemma IndexOfAt(s: string, sep: string, i: nat)
    requires |sep| > 0 && OccursAt(s, sep, i)
    requires forall j: nat :: j < i ==> !OccursAt(s, sep, j)
    ensures IndexOf(s, sep) == Some(i)
  {
    assert i <= |s|;
  }

  /** Two pieces around the first occurrence, when the second holds none. */
  lemma SplitTwo(p: string, a: string, sep: string)
    requires |sep| > 0 && IndexOf(p + sep + a, sep) == Some(|p|) && IndexOf(a, sep) == None
    ensures Split(p + sep + a, sep) == [p, a]
  {
    var s := p + sep + a;
    assert s[..|p|] == p && s[|p| + |sep|..] == a;
  }

  /**
   * Splitting undoes joining, provided no piece holds the separator's first
   * character (so no occurrence of the separator straddles a boundary).
   */
  lemma {:induction false} SplitJoin(parts: seq<string>, sep: string)
    requires |sep| > 0 && |parts| >= 1
    requires forall k :: 0 <= k < |parts| ==> sep[0] !in parts[k]
    ensures Split(Join(parts, sep), sep) == parts
  {
    if |parts| == 1 {
      IndexOfFree(parts[0], sep);
      assert Split(parts[0], sep) == [parts[0]];
    } else {
      var tail := parts[1..];
      var rest := Join(tail, sep);
      assert Join(parts, sep) == parts[0] + sep + rest;
      IndexOfAfterFree(parts[0], sep, rest);
      var s := parts[0] + sep + rest;
      assert s[|parts[0]| + |sep|..] == rest;
      assert s[..|parts[0]|] == parts[0];
      assert forall k :: 0 <= k < |tail| ==> tail[k] == parts[k + 1];
      SplitJoin(tail, sep);
      assert Split(s, sep) == [parts[0]] + Split(rest, sep);
      assert parts == [parts[0]] + tail;
    }
  }

  /**
   * `s.slice(start, -1)`: from `start` up to, not including, the last character;
   * empty when `start` is past that point.
   */
  function SliceToLast(s: string, start: nat): (r: string)
    ensures |s| >= 1 && start <= |s| - 1 ==> r == s[start..|s| - 1]
    ensures (|s| == 0 || start >= |s| - 1) ==> r == ""
  {
    if |s| >= 1 && start <= |s| - 1 then s[start..|s| - 1] else ""
  }

  predicate IsDigit(c: char)
  {
    '0' <= c <= '9'
  }

  /**
   * `s.split(/\d+$/)[0]`: `s` with its trailing run of decimal digits removed
   * (the pattern matches at most once, at the end of the string).
   */
  function StripTrailingDigits(s: string): (r: string)
    ensures |r| <= |s| && r == s[..|r|]
    ensures forall k :: |r| <= k < |s| ==> IsDigit(s[k])
    ensures |r| == 0 || !IsDigit(r[|r| - 1])
    decreases |s|
  {
    if |s| > 0 && IsDigit(s[|s| - 1]) then StripTrailingDigits(s[..|s| - 1]) else s
  }

  /** Stripping the digits from `base + digits` gives back `base` when `base` does not end in a digit. */
  lemma {:induction false} StripTrailingDigitsOf(base: string, digits: string)
    requires |base| == 0 || !IsDigit(base[|base| - 1])
    requires forall k :: 0 <= k < |digits| ==> IsDigit(digits[k])
    ensures StripTrailingDigits(base + digits) == base
    decreases |digits|
  {
    if |digits| == 0 {
      assert base + digits == base;
    } else {
      var s := base + digits;
      assert s[..|s| - 1] == base + digits[..|digits| - 1];
      StripTrailingDigitsOf(base, digits[..|digits| - 1]);
    }
  }

  /** The characters JavaScript's `\s` class matches. */
  predicate IsSpace(c: char)
  {
    c == ' ' || c == '\t' || c == '\n' || c == '\r' || c == '\U{B}' || c == '\U{C}'
    || c == '\U{A0}' || c == '\U{1680}' || ('\U{2000}' <= c <= '\U{200A}')
    || c == '\U{2028}' || c == '\U{2029}' || c == '\U{202F}' || c == '\U{205F}'
    || c == '\U{3000}' || c == '\U{FEFF}'
  }

  /** The word `as` with a white-space character on each side starts at position `i`. */
  predicate AsWordAt(s: string, i: nat)
  {
    i + 4 <= |s| && IsSpace(s[i]) && s[i + 1] == 'a' && s[i + 2] == 's' && IsSpace(s[i + 3])
  }

  /** `/\sas\s/.test(s)`: the pattern is tried at each position from the left. */
  predicate HasSpacedAs(s: string)
    decreases |s|
  {
    |s| >= 4 && (AsWordAt(s, 0) || HasSpacedAs(s[1..]))
  }

  /** The test succeeds exactly when the word `as` occurs with white space around it somewhere. */
  lemma {:induction false} HasSpacedAsIff(s: string)
    ensures HasSpacedAs(s) <==> exists i: nat :: AsWordAt(s, i)
    decreases |s|
  {
    if |s| >= 4 {
      HasSpacedAsIff(s[1..]);
      forall i: nat | AsWordAt(s[1..], i) ensures AsWordAt(s, i + 1) {
        assert s[1..][i] == s[i + 1] && s[1..][i + 3] == s[i + 4];
      }
      forall i: nat | AsWordAt(s, i) && i > 0 ensures AsWordAt(s[1..], i - 1) {
        assert s[1..][i - 1] == s[i] && s[1..][i + 2] == s[i + 3];
      }
    }
  }

  function DigitChar(d: nat): (c: char)
    requires d < 10
    ensures IsDigit(c) && c as int - '0' as int == d
  {
    ('0' as int + d) as char
  }

  /** The decimal spelling of a natural number. */
  function NatToString(n: nat): (r: string)
    ensures |r| >= 1
    ensures forall k :: 0 <= k < |r| ==> IsDigit(r[k])
  {
    if n < 10 then [DigitChar(n)] else NatToString(n / 10) + [DigitChar(n % 10)]
  }

  /** Different numbers have different spellings, so an index key names one index. */
  lemma {:induction false} NatToStringInjective(a: nat, b: nat)
    requires NatToString(a) == NatToString(b)
    ensures a == b
    decreases a
  {
    if a >= 10 && b >= 10 {
      var sa, sb := NatToString(a), NatToString(b);
      assert sa[..|sa| - 1] == NatToString(a / 10) && sb[..|sb| - 1] == NatToString(b / 10);
      assert DigitChar(a % 10) == sa[|sa| - 1] == sb[|sb| - 1] == DigitChar(b % 10);
      NatToStringInjective(a / 10, b / 10);
    } else if a < 10 && b < 10 {
      assert DigitChar(a) == NatToString(a)[0] == NatToString(b)[0] == DigitChar(b);
    }
  }

  function IntToString(n: int): string
  {
    if n < 0 then "-" + NatToString(-n) else NatToString(n)
  }

  /** The index keys `"0"`, `"1"`, ... of an array or string of length `n`. */
  function IndexKeys(n: nat): (r: seq<string>)
    ensures |r| == n
    ensures forall i :: 0 <= i < n ==> r[i] == NatToString(i)
  {
    if n == 0 then [] else IndexKeys(n - 1) + [NatToString(n - 1)]
  }

  /** The index named by the property key `k` in an array or string of length `n`, if any. */
  function FindIndexKey(k: string, n: nat): (r: Option<nat>)
    ensures r.Some? ==> r.value < n && NatToString(r.value) == k
    ensures r.None? ==> forall i :: 0 <= i < n ==> NatToString(i) != k
  {
    if n == 0 then None
    else if NatToString(n - 1) == k then Some(n - 1)
    else FindIndexKey(k, n - 1)
  }
}
