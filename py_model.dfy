/**
 * The few pieces of the Python runtime that atrace relies on, as values:
 * optional values and errors, an opaque runtime value, insertion-ordered
 * dictionaries, `str.startswith`, `str.strip`, `str(int)` and
 * `str.splitlines`.
 */
module PyModel {

  datatype Option<+T> = None | Some(value: T) {
    /** `x or default` for an optional value */
    function GetOr(default: T): T {
      if Some? then value else default
    }
  }

  /** The Python exceptions the modelled code can raise on its own. */
  datatype PyError =
    | IndexError   // `activations[-1]` on an empty list
    | ValueError   // `max()` of an empty sequence

  datatype Result<+T> = Ok(value: T) | Err(error: PyError)

  /**
   * A Python runtime value, seen only through what atrace asks of it:
   * equality, `callable`, `isinstance(_, ModuleType)`, `is None` and `str`.
   */
  datatype Value =
    | NoneValue
    | Int(i: int)
    | Str(s: string)
    | Function(name: string)
    | Module(name: string)
    | Object(repr: string)

  predicate IsNone(v: Value) { v.NoneValue? }
  predicate IsCallable(v: Value) { v.Function? }
  predicate IsModule(v: Value) { v.Module? }

  /** `str(v)`, without the address of a function and the origin of a module */
  function ToString(v: Value): string {
    match v
    case NoneValue => "None"
    case Int(i) => IntToString(i)
    case Str(s) => s
    case Function(name) => "<function " + name + ">"
    case Module(name) => "<module '" + name + "'>"
    case Object(repr) => repr
  }

  // ---------------------------------------------------------------------
  // Integers as decimal text

  function DigitChar(d: nat): (c: char)
    requires d < 10
    ensures '0' <= c <= '9'
    ensures DigitValue(c) == d
  {
    ('0' as int + d) as char
  }

  /** The value of a decimal digit character */
  function DigitValue(c: char): int {
    c as int - '0' as int
  }

  /** `int(s)` for a text of decimal digits, most significant digit first */
  function DecimalValue(s: string): int {
    if s == [] then 0 else DecimalValue(s[..|s| - 1]) * 10 + DigitValue(s[|s| - 1])
  }

  /** `str(n)` for a non-negative integer: the decimal digits of `n`, with no leading zero */
  function NatToString(n: nat): (s: string)
    ensures |s| >= 1
    ensures forall k :: 0 <= k < |s| ==> '0' <= s[k] <= '9'
    ensures s[0] == '0' ==> n == 0
    ensures DecimalValue(s) == n
    decreases n
  {
    if n < 10 then [DigitChar(n)]
    else
      var front := NatToString(n / 10);
      var s := front + [DigitChar(n % 10)];
      assert s[..|s| - 1] == front;
      s
  }

  /** `str(i)` for a Python int: a `-` for a negative number, then the digits of its magnitude */
  function IntToString(i: int): (s: string)
    ensures |s| >= 1
    ensures (s[0] == '-') <==> i < 0
    ensures i < 0 ==> |s| >= 2 && DecimalValue(s[1..]) == -i
    ensures i >= 0 ==> DecimalValue(s) == i
  {
    if i < 0 then
      var s := "-" + NatToString(-i);
      assert s[1..] == NatToString(-i);
      s
    else NatToString(i)
  }

  /** `str` of an int determines the int: distinct line numbers print differently. */
  lemma {:induction false} IntToStringInjective(a: int, b: int)
    requires IntToString(a) == IntToString(b)
    ensures a == b
  {
  }

  // ---------------------------------------------------------------------
  // Strings

  /** `s.startswith(prefix)` */
  predicate StartsWith(s: string, prefix: string) {
    |prefix| <= |s| && s[..|prefix|] == prefix
  }

  /** The characters for which Python's `str.isspace()` holds. */
  predicate IsSpace(c: char) {
    var n := c as int;
    (9 <= n <= 13) || (28 <= n <= 32) || n == 0x85 || n == 0xA0 || n == 0x1680
    || (0x2000 <= n <= 0x200A) || n == 0x2028 || n == 0x2029 || n == 0x202F
    || n == 0x205F || n == 0x3000
  }

  /** `s.lstrip()`: a suffix of `s` whose dropped characters are all white space */
  function StripStart(s: string): (r: string)
    ensures |r| <= |s| && r == s[|s| - |r|..]
    ensures r == [] || !IsSpace(r[0])
    ensures forall k :: 0 <= k < |s| - |r| ==> IsSpace(s[k])
  {
    if s != [] && IsSpace(s[0]) then StripStart(s[1..]) else s
  }

  /** `s.rstrip()`: a prefix of `s` whose dropped characters are all white space */
  function StripEnd(s: string): (r: string)
    ensures |r| <= |s| && r == s[..|r|]
    ensures r == [] || !IsSpace(r[|r| - 1])
    ensures forall k :: |r| <= k < |s| ==> IsSpace(s[k])
  {
    if s != [] && IsSpace(s[|s| - 1]) then StripEnd(s[..|s| - 1]) else s
  }

  /** All of `s` is white space. */
  predicate AllSpace(s: string) {
    forall k :: 0 <= k < |s| ==> IsSpace(s[k])
  }

  /** `r` is a contiguous piece of `s` and everything of `s` around it is white space. */
  predicate BetweenSpaces(r: string, s: string) {
    exists i | 0 <= i <= |s| - |r| ::
      r == s[i..][..|r|] && AllSpace(s[..i]) && AllSpace(s[i + |r|..])
  }

  /**
   * `s.strip()`: the piece of `s` left once both white-space ends are
   * dropped; it is empty exactly when `s` is all white space.
   */
  function Strip(s: string): (r: string)
    ensures r == [] || (!IsSpace(r[0]) && !IsSpace(r[|r| - 1]))
    ensures BetweenSpaces(r, s)
    ensures r == [] <==> AllSpace(s)
  {
    StripEnds(s);
    StripEnd(StripStart(s))
  }

  /** The ends `Strip` drops are white space, and nothing is left only of white space. */
  lemma {:induction false} StripEnds(s: string)
    ensures var t := StripStart(s);
            var r := StripEnd(t);
            var i := |s| - |t|;
            r == s[i..][..|r|] && AllSpace(s[..i]) && AllSpace(s[i + |r|..]) &&
            (r == [] <==> AllSpace(s))
    ensures BetweenSpaces(StripEnd(StripStart(s)), s)
  {
    var t := StripStart(s);
    var r := StripEnd(t);
    var i := |s| - |t|;
    assert t == s[i..];
    assert r == s[i..][..|r|];
    forall k | 0 <= k < |s[..i]| ensures IsSpace(s[..i][k]) {
      assert s[..i][k] == s[k];
    }
    var tail := s[i + |r|..];
    forall k | 0 <= k < |tail| ensures IsSpace(tail[k]) {
      assert tail[k] == t[|r| + k];
    }
    if r == [] {
      if t != [] {
        assert false;
      }
      assert s[..i] == s;
    } else {
      assert s[i] == r[0];
    }
  }

  /** The line boundaries of Python's `str.splitlines()`. */
  predicate IsLineBreak(c: char) {
    var n := c as int;
    (10 <= n <= 13) || (28 <= n <= 30) || n == 0x85 || n == 0x2028 || n == 0x2029
  }

  /**
   * `s.splitlines()`, written for the text `current` of a line under
   * construction: "\r\n" is one boundary, and no empty line follows the
   * last boundary.
   */
  function SplitLinesFrom(s: string, current: string): (lines: seq<string>)
    decreases |s|
  {
    if s == [] then (if current == [] then [] else [current])
    else if s[0] == '\r' && |s| >= 2 && s[1] == '\n' then [current] + SplitLinesFrom(s[2..], [])
    else if IsLineBreak(s[0]) then [current] + SplitLinesFrom(s[1..], [])
    else SplitLinesFrom(s[1..], current + [s[0]])
  }

  /** `s.splitlines()` */
  function SplitLines(s: string): seq<string> {
    SplitLinesFrom(s, [])
  }

  /** `"\n".join(lines)` */
  function JoinLines(lines: seq<string>): string {
    if lines == [] then [] else if |lines| == 1 then lines[0] else lines[0] + "\n" + JoinLines(lines[1..])
  }

  /** No line produced by `splitlines` contains a line boundary. */
  lemma {:induction false} SplitLinesFromNoBreaks(s: string, current: string)
    requires forall k :: 0 <= k < |current| ==> !IsLineBreak(current[k])
    ensures forall i, k :: 0 <= i < |SplitLinesFrom(s, current)| && 0 <= k < |SplitLinesFrom(s, current)[i]|
              ==> !IsLineBreak(SplitLinesFrom(s, current)[i][k])
    decreases |s|
  {
    if s == [] {
    } else if s[0] == '\r' && |s| >= 2 && s[1] == '\n' {
      SplitLinesFromNoBreaks(s[2..], []);
    } else if IsLineBreak(s[0]) {
      SplitLinesFromNoBreaks(s[1..], []);
    } else {
      SplitLinesFromNoBreaks(s[1..], current + [s[0]]);
    }
  }

  /** A prefix one element longer */
  lemma {:induction false} PrefixSnoc<T>(s: seq<T>, k: nat)
    requires k < |s|
    ensures s[..k] + [s[k]] == s[..k + 1]
  {
  }

  /** Concatenation is associative. */
  lemma {:induction false} ConcatAssoc<T>(a: seq<T>, b: seq<T>, c: seq<T>)
    ensures (a + b) + c == a + (b + c)
  {
  }

  /** The text `JoinLines(SplitLinesFrom(s, current))` gives back when `s` has only "\n" breaks */
  function Rejoined(s: string, current: string): string {
    if s != [] && s[|s| - 1] == '\n' then current + s[..|s| - 1] else current + s
  }

  /**
   * For text whose only line boundary is "\n", `splitlines` followed by
   * `"\n".join` gives the text back, less one final "\n".
   */
  lemma {:induction false} SplitLinesFromJoin(s: string, current: string)
    requires forall k :: 0 <= k < |s| ==> s[k] == '\n' || !IsLineBreak(s[k])
    ensures JoinLines(SplitLinesFrom(s, current)) == Rejoined(s, current)
    decreases |s|
  {
    if s == [] {
    } else if s[0] == '\n' {
      assert forall k :: 0 <= k < |s[1..]| ==> s[1..][k] == s[k + 1];
      SplitLinesFromJoin(s[1..], []);
      JoinAfterNewline(s, current);
    } else {
      assert forall k :: 0 <= k < |s[1..]| ==> s[1..][k] == s[k + 1];
      SplitLinesFromJoin(s[1..], current + [s[0]]);
      JoinAfterCharacter(s, current);
    }
  }

  /** The step of `SplitLinesFromJoin` at a "\n" */
  lemma {:induction false} JoinAfterNewline(s: string, current: string)
    requires s != [] && s[0] == '\n'
    requires JoinLines(SplitLinesFrom(s[1..], [])) == Rejoined(s[1..], [])
    ensures JoinLines(SplitLinesFrom(s, current)) == Rejoined(s, current)
  {
    assert SplitLinesFrom(s, current) == [current] + SplitLinesFrom(s[1..], []);
    if s[1..] == [] {
      assert SplitLinesFrom(s[1..], []) == [];
    } else {
      JoinBeforeLine(s, current);
    }
  }

  /** A "\n" followed by more text: the line so far, a "\n", and the rest rejoined */
  lemma {:induction false} JoinBeforeLine(s: string, current: string)
    requires |s| >= 2 && s[0] == '\n'
    requires JoinLines(SplitLinesFrom(s[1..], [])) == Rejoined(s[1..], [])
    ensures JoinLines([current] + SplitLinesFrom(s[1..], [])) == Rejoined(s, current)
  {
    var tail := s[1..];
    var rest := SplitLinesFrom(tail, []);
    SplitLinesFromNonEmpty(tail);
    assert ([current] + rest)[1..] == rest;
    assert JoinLines([current] + rest) == current + "\n" + Rejoined(tail, []);
    assert tail[|tail| - 1] == s[|s| - 1];
    if s[|s| - 1] == '\n' {
      assert s[..|s| - 1] == "\n" + tail[..|tail| - 1];
      ConcatAssoc(current, "\n", tail[..|tail| - 1]);
    } else {
      assert s == "\n" + tail;
      ConcatAssoc(current, "\n", tail);
    }
  }

  /** The step of `SplitLinesFromJoin` at a character that is no line break */
  lemma {:induction false} JoinAfterCharacter(s: string, current: string)
    requires s != [] && !IsLineBreak(s[0])
    requires JoinLines(SplitLinesFrom(s[1..], current + [s[0]])) == Rejoined(s[1..], current + [s[0]])
    ensures JoinLines(SplitLinesFrom(s, current)) == Rejoined(s, current)
  {
    assert SplitLinesFrom(s, current) == SplitLinesFrom(s[1..], current + [s[0]]);
    if s[|s| - 1] == '\n' {
      assert current + s[..|s| - 1] == current + [s[0]] + s[1..][..|s[1..]| - 1];
    } else {
      assert current + s == current + [s[0]] + s[1..];
    }
  }

  lemma {:induction false} SplitLinesFromNonEmpty(s: string)
    requires s != []
    ensures SplitLinesFrom(s, []) != []
  {
    if s[0] == '\r' && |s| >= 2 && s[1] == '\n' {
    } else if IsLineBreak(s[0]) {
    } else {
      assert [] + [s[0]] == [s[0]];
      SplitLinesFromGrows(s[1..], [s[0]]);
    }
  }

  lemma {:induction false} SplitLinesFromGrows(s: string, current: string)
    requires current != []
    ensures SplitLinesFrom(s, current) != []
    decreases |s|
  {
    if s == [] {
    } else if s[0] == '\r' && |s| >= 2 && s[1] == '\n' {
    } else if IsLineBreak(s[0]) {
    } else {
      SplitLinesFromGrows(s[1..], current + [s[0]]);
    }
  }

  // ---------------------------------------------------------------------
  // Dictionaries: insertion-ordered association lists

  type Dict<K, V> = seq<(K, V)>

  /** `list(d.keys())` */
  function Keys<K, V>(d: Dict<K, V>): (ks: seq<K>)
    ensures |ks| == |d|
    ensures forall i :: 0 <= i < |d| ==> ks[i] == d[i].0
  {
    if d == [] then [] else [d[0].0] + Keys(d[1..])
  }

  /** What every Python dict is: no key occurs twice. */
  predicate IsDict<K(==), V>(d: Dict<K, V>) {
    forall i, j :: 0 <= i < j < |d| ==> d[i].0 != d[j].0
  }

  /** `d.get(k)`, with `None` for a missing key */
  function Get<K(==), V>(d: Dict<K, V>, k: K): (r: Option<V>)
    ensures r.None? <==> k !in Keys(d)
    ensures r.Some? ==> (k, r.value) in d
  {
    if d == [] then None
    else if d[0].0 == k then Some(d[0].1)
    else Get(d[1..], k)
  }

  lemma {:induction false} GetAt<K, V>(d: Dict<K, V>, i: nat)
    requires IsDict(d) && i < |d|
    ensures Get(d, d[i].0) == Some(d[i].1)
  {
    if i > 0 {
      assert d[1..][i - 1] == d[i];
      GetAt(d[1..], i - 1);
    }
  }

  /** `d[k] = v`: an existing key keeps its position, a new key goes last. */
  function Put<K(==), V>(d: Dict<K, V>, k: K, v: V): (r: Dict<K, V>)
    ensures Keys(r) == if k in Keys(d) then Keys(d) else Keys(d) + [k]
  {
    if d == [] then [(k, v)]
    else if d[0].0 == k then [(k, v)] + d[1..]
    else [d[0]] + Put(d[1..], k, v)
  }

  lemma {:induction false} GetPut<K, V>(d: Dict<K, V>, k: K, v: V, k': K)
    ensures Get(Put(d, k, v), k') == if k' == k then Some(v) else Get(d, k')
  {
    if d != [] && d[0].0 != k {
      GetPut(d[1..], k, v, k');
    }
  }

  /** The keys of a dict are those of its front, then its last key. */
  lemma {:induction false} KeysSnoc<K, V>(d: Dict<K, V>)
    requires d != []
    ensures Keys(d) == Keys(d[..|d| - 1]) + [d[|d| - 1].0]
  {
    var r := Keys(d[..|d| - 1]) + [d[|d| - 1].0];
    assert forall i | 0 <= i < |d| :: r[i] == d[i].0;
  }

  /** Whether a list of pairs is a dictionary depends only on its keys. */
  lemma {:induction false} SameKeysIsDict<K, V>(a: Dict<K, V>, b: Dict<K, V>)
    requires IsDict(b) && Keys(a) == Keys(b)
    ensures IsDict(a)
  {
    forall i, j | 0 <= i < j < |a|
      ensures a[i].0 != a[j].0
    {
      assert a[i].0 == Keys(b)[i] && a[j].0 == Keys(b)[j];
    }
  }

  lemma {:induction false} PutIsDict<K, V>(d: Dict<K, V>, k: K, v: V)
    requires IsDict(d)
    ensures IsDict(Put(d, k, v))
  {
    var r := Put(d, k, v);
    if k in Keys(d) {
      SameKeysIsDict(r, d);
    } else {
      var ks := Keys(d) + [k];
      forall i, j | 0 <= i < j < |r|
        ensures r[i].0 != r[j].0
      {
        assert r[i].0 == ks[i] && r[j].0 == ks[j];
        assert ks[i] == Keys(d)[i];
        if j < |d| {
          assert ks[j] == Keys(d)[j];
        } else {
          assert ks[j] == k;
        }
      }
    }
  }

  /** `a | b`: `b`'s entries overwrite or follow `a`'s. */
  function Union<K(==), V>(a: Dict<K, V>, b: Dict<K, V>): (r: Dict<K, V>)
    decreases |b|
  {
    if b == [] then a else Union(Put(a, b[0].0, b[0].1), b[1..])
  }

  lemma {:induction false} GetUnion<K, V>(a: Dict<K, V>, b: Dict<K, V>, k: K)
    requires IsDict(b)
    ensures Get(Union(a, b), k) == if Get(b, k).Some? then Get(b, k) else Get(a, k)
    decreases |b|
  {
    if b != [] {
      GetUnion(Put(a, b[0].0, b[0].1), b[1..], k);
      GetPut(a, b[0].0, b[0].1, k);
      assert b[0].0 !in Keys(b[1..]);
    }
  }

  lemma {:induction false} UnionIsDict<K, V>(a: Dict<K, V>, b: Dict<K, V>)
    requires IsDict(a)
    ensures IsDict(Union(a, b))
    decreases |b|
  {
    if b != [] {
      PutIsDict(a, b[0].0, b[0].1);
      UnionIsDict(Put(a, b[0].0, b[0].1), b[1..]);
    }
  }

  /** `{k: v for k, v in d.items() if keep(k, v)}` */
  function Select<K(==), V>(d: Dict<K, V>, keep: (K, V) -> bool): (r: Dict<K, V>)
    ensures IsSubsequence(r, d)
    ensures forall i :: 0 <= i < |r| ==> keep(r[i].0, r[i].1)
    ensures forall i :: 0 <= i < |d| && keep(d[i].0, d[i].1) ==> d[i] in r
  {
    if d == [] then []
    else if keep(d[0].0, d[0].1) then [d[0]] + Select(d[1..], keep)
    else Select(d[1..], keep)
  }

  /** A selection that keeps every entry returns its input. */
  lemma {:induction false} SelectAll<K, V>(d: Dict<K, V>, keep: (K, V) -> bool)
    requires forall i :: 0 <= i < |d| ==> keep(d[i].0, d[i].1)
    ensures Select(d, keep) == d
  {
    if d != [] {
      SelectAll(d[1..], keep);
    }
  }

  lemma {:induction false} GetSelect<K, V>(d: Dict<K, V>, keep: (K, V) -> bool, k: K)
    requires IsDict(d)
    ensures Get(Select(d, keep), k) == if Get(d, k).Some? && keep(k, Get(d, k).value) then Get(d, k) else None
  {
    if d != [] {
      GetSelect(d[1..], keep, k);
      SubsequenceKeys(Select(d[1..], keep), d[1..]);
    }
  }

  /** An entry whose key is new, in front of a dict, gives a dict. */
  lemma {:induction false} ConsIsDict<K, V>(x: (K, V), rest: Dict<K, V>)
    requires IsDict(rest) && x.0 !in Keys(rest)
    ensures IsDict([x] + rest)
  {
    var r := [x] + rest;
    forall i, j | 0 <= i < j < |r| ensures r[i].0 != r[j].0 {
      assert r[j] == rest[j - 1] && Keys(rest)[j - 1] == rest[j - 1].0;
      if i > 0 {
        assert r[i] == rest[i - 1];
      }
    }
  }

  lemma {:induction false} SelectIsDict<K, V>(d: Dict<K, V>, keep: (K, V) -> bool)
    requires IsDict(d)
    ensures IsDict(Select(d, keep))
  {
    if d != [] {
      var rest := Select(d[1..], keep);
      SelectIsDict(d[1..], keep);
      if keep(d[0].0, d[0].1) {
        SubsequenceKeys(rest, d[1..]);
        assert d[0].0 !in Keys(d[1..]);
        ConsIsDict(d[0], rest);
      }
    }
  }

  // ---------------------------------------------------------------------
  // Sequences

  /** `a` is `b` with some elements left out, order kept. */
  predicate IsSubsequence<T(==)>(a: seq<T>, b: seq<T>)
    decreases |b|
  {
    if b == [] then a == []
    else (a != [] && a[0] == b[0] && IsSubsequence(a[1..], b[1..])) || IsSubsequence(a, b[1..])
  }

  /** `[x for x in s if keep(x)]` */
  function Filter<T>(s: seq<T>, keep: T -> bool): (r: seq<T>)
    ensures IsSubsequence(r, s)
    ensures forall i :: 0 <= i < |r| ==> keep(r[i])
    ensures forall i :: 0 <= i < |s| && keep(s[i]) ==> s[i] in r
  {
    if s == [] then []
    else
      assert s == [s[0]] + s[1..];
      if keep(s[0]) then [s[0]] + Filter(s[1..], keep)
      else Filter(s[1..], keep)
  }

  /** A filter keeps each element it accepts as often as it occurs, and no other. */
  lemma {:induction false} FilterCounts<T(!new)>(s: seq<T>, keep: T -> bool)
    ensures forall x :: multiset(Filter(s, keep))[x] == if keep(x) then multiset(s)[x] else 0
  {
    if s != [] {
      FilterCounts(s[1..], keep);
      assert s == [s[0]] + s[1..];
    }
  }

  /** The filter of a suffix: its first element if kept, then the filter of the rest. */
  lemma {:induction false} FilterFrom<T>(s: seq<T>, keep: T -> bool, i: nat)
    requires i < |s|
    ensures Filter(s[i..], keep) == (if keep(s[i]) then [s[i]] else []) + Filter(s[i + 1..], keep)
  {
    assert s[i..][0] == s[i];
    assert s[i..][1..] == s[i + 1..];
  }

  lemma {:induction false} FilterKeepFrom<T>(s: seq<T>, keep: T -> bool, i: nat, rest: seq<T>)
    requires i < |s| && keep(s[i]) && Filter(s[i + 1..], keep) == rest
    ensures Filter(s[i..], keep) == [s[i]] + rest
  {
    FilterFrom(s, keep, i);
  }

  lemma {:induction false} FilterDropFrom<T>(s: seq<T>, keep: T -> bool, i: nat, rest: seq<T>)
    requires i < |s| && !keep(s[i]) && Filter(s[i + 1..], keep) == rest
    ensures Filter(s[i..], keep) == rest
  {
    FilterFrom(s, keep, i);
  }

  /** A filter steps over a prefix of elements it rejects. */
  lemma {:induction false} FilterSkip<T>(s: seq<T>, keep: T -> bool, k: nat)
    requires k <= |s|
    requires forall i :: 0 <= i < k ==> !keep(s[i])
    ensures Filter(s, keep) == Filter(s[k..], keep)
  {
    if k > 0 {
      FilterSkip(s[1..], keep, k - 1);
      assert s[1..][k - 1..] == s[k..];
    }
  }

  /** A filter that keeps every element returns its input. */
  lemma {:induction false} FilterAll<T>(s: seq<T>, keep: T -> bool)
    requires forall i :: 0 <= i < |s| ==> keep(s[i])
    ensures Filter(s, keep) == s
  {
    if s != [] {
      FilterAll(s[1..], keep);
    }
  }

  /** Every element of a subsequence is an element of the sequence. */
  lemma {:induction false} SubsequenceMembers<T>(a: seq<T>, b: seq<T>, x: T)
    requires IsSubsequence(a, b) && x in a
    ensures x in b
    decreases |b|
  {
    if a != [] && a[0] == b[0] && IsSubsequence(a[1..], b[1..]) {
      if x != a[0] {
        SubsequenceMembers(a[1..], b[1..], x);
      }
    } else {
      SubsequenceMembers(a, b[1..], x);
    }
  }

  lemma {:induction false} SubsequenceKeys<K, V>(a: Dict<K, V>, b: Dict<K, V>)
    requires IsSubsequence(a, b)
    ensures forall k :: k in Keys(a) ==> k in Keys(b)
  {
    forall k | k in Keys(a) ensures k in Keys(b) {
      var i :| 0 <= i < |a| && a[i].0 == k;
      SubsequenceMembers(a, b, a[i]);
    }
  }
}
