/**
 * Values shared by every part of the model: Java's nullable references as `Option`,
 * exceptions as `Error` values carried by `Result`, and the few `java.lang.String`
 * operations the core relies on (`trim`, `isEmpty`, `String.valueOf`).
 */
module Base {

  /** A Java reference that may be null: `None` is null. */
  datatype Option<+T> = None | Some(value: T)

  /** The exception classes the core raises or lets through. */
  datatype ErrorKind =
    | InvalidSyntax           // InvalidSyntaxException
    | DoclerkFailure          // a plain DoclerkException
    | UndefinedVariable       // UndefinedVariableException
    | UndefinedFunction       // UndefinedFunctionException
    | NullPointer             // NullPointerException (also Objects.requireNonNull)
    | IndexOutOfBounds        // IndexOutOfBoundsException from List.get
    | StringIndexOutOfBounds  // StringIndexOutOfBoundsException from String.substring
    | IllegalArgument         // IllegalArgumentException
    | ClassCast               // ClassCastException from an unchecked YAML cast
    | OutOfFuel               // StackOverflowError: an Error, not an Exception

  datatype Error = Error(kind: ErrorKind, message: string)

  /** The result of an operation that may throw. */
  datatype Result<+T> = Ok(value: T) | Err(error: Error) {
    predicate IsFailure() {
      Err?
    }

    function PropagateFailure<U>(): Result<U>
      requires Err?
    {
      Err(error)
    }

    function Extract(): T
      requires Ok?
    {
      value
    }
  }

  /** The NullPointerException of calling a method on a null reference. */
  const NullPointerError := Error(NullPointer, "null")

  /** The failure of casting a loaded YAML value that is not a mapping to `Map`. */
  const NotAMappingError := Error(ClassCast, "cannot be cast to class java.util.Map")

  /** The failure of casting a loaded YAML value that is not a sequence to `List`. */
  const NotAListError := Error(ClassCast, "cannot be cast to class java.util.List")

  /** True of the failures a `catch (Exception e)` block catches. */
  predicate IsException(e: Error) {
    e.kind != OutOfFuel
  }

  /** The text Java string concatenation and `StringBuilder.append` produce for a String. */
  function JavaString(s: Option<string>): (r: string)
    ensures s.Some? ==> r == s.value
    ensures s.None? ==> r == "null"
  {
    match s
    case None => "null"
    case Some(v) => v
  }

  /** `String.trim` removes every leading and trailing character up to U+0020. */
  predicate IsTrimmed(c: char) {
    c <= ' '
  }

  function TrimStart(s: string): (r: string)
    ensures |r| <= |s|
    ensures r != [] ==> !IsTrimmed(r[0])
    ensures forall k :: 0 <= k < |s| - |r| ==> IsTrimmed(s[k])
  {
    if s != [] && IsTrimmed(s[0]) then TrimStart(s[1..]) else s
  }

  function TrimEnd(s: string): (r: string)
    ensures |r| <= |s| && (r != [] ==> r[0] == s[0])
    ensures r != [] ==> !IsTrimmed(r[|r| - 1])
    ensures forall k :: |r| <= k < |s| ==> IsTrimmed(s[k])
  {
    if s != [] && IsTrimmed(s[|s| - 1]) then TrimEnd(s[..|s| - 1]) else s
  }

  /** `String.trim`: the longest slice of `s` that starts and ends with a kept character. */
  function Trim(s: string): (r: string)
    ensures |r| <= |s|
    ensures r != [] ==> !IsTrimmed(r[0]) && !IsTrimmed(r[|r| - 1])
  {
    TrimEnd(TrimStart(s))
  }

  /** What `TrimStart` keeps is the end of its input. */
  lemma {:induction false} TrimStartIsSuffix(s: string)
    ensures TrimStart(s) == s[|s| - |TrimStart(s)|..]
  {
    if s != [] && IsTrimmed(s[0]) {
      TrimStartIsSuffix(s[1..]);
      assert s[1..][|s[1..]| - |TrimStart(s[1..])|..] == s[|s| - |TrimStart(s)|..];
    }
  }

  /** What `TrimEnd` keeps is the start of its input. */
  lemma {:induction false} TrimEndIsPrefix(s: string)
    ensures TrimEnd(s) == s[..|TrimEnd(s)|]
  {
    if s != [] && IsTrimmed(s[|s| - 1]) {
      TrimEndIsPrefix(s[..|s| - 1]);
      assert s[..|s| - 1][..|TrimEnd(s)|] == s[..|TrimEnd(s)|];
    }
  }

  /**
   * `String.trim` returns a slice of its input, and every character outside the slice is one it
   * removes.
   */
  lemma TrimIsSlice(s: string)
    ensures exists i, j :: 0 <= i <= j <= |s| && Trim(s) == s[i..j]
                           && forall k :: (0 <= k < i || j <= k < |s|) ==> IsTrimmed(s[k])
  {
    var t := TrimStart(s);
    var i := |s| - |t|;
    TrimStartIsSuffix(s);
    TrimEndIsPrefix(t);
    var j := i + |Trim(s)|;
    assert Trim(s) == s[i..j];
    assert forall k :: j <= k < |s| ==> s[k] == t[k - i];
  }

  /** `s.trim().isEmpty()`. */
  predicate IsBlank(s: string) {
    Trim(s) == []
  }

  lemma {:induction false} TrimStartOfBlank(s: string)
    requires forall k :: 0 <= k < |s| ==> IsTrimmed(s[k])
    ensures TrimStart(s) == []
  {
    if s != [] {
      TrimStartOfBlank(s[1..]);
    }
  }

  lemma {:induction false} TrimStartKeeps(s: string, k: nat)
    requires k < |s| && !IsTrimmed(s[k])
    ensures TrimStart(s) != [] && !IsTrimmed(TrimStart(s)[0])
  {
    if IsTrimmed(s[0]) {
      assert s[1..][k - 1] == s[k];
      TrimStartKeeps(s[1..], k - 1);
    }
  }

  lemma {:induction false} TrimEndKeeps(t: string)
    requires t != [] && !IsTrimmed(t[0])
    ensures TrimEnd(t) != []
  {
    if IsTrimmed(t[|t| - 1]) {
      var u := t[..|t| - 1];
      assert u[0] == t[0];
      TrimEndKeeps(u);
    }
  }

  /** A string is blank exactly when every character of it is one `trim` removes. */
  lemma BlankIffAllTrimmed(s: string)
    ensures IsBlank(s) <==> forall k :: 0 <= k < |s| ==> IsTrimmed(s[k])
  {
    if forall k :: 0 <= k < |s| ==> IsTrimmed(s[k]) {
      TrimStartOfBlank(s);
    } else {
      var k :| 0 <= k < |s| && !IsTrimmed(s[k]);
      TrimStartKeeps(s, k);
      TrimEndKeeps(TrimStart(s));
    }
  }

  /** A string whose first and last characters are kept is its own trim. */
  lemma TrimOfTrimmed(s: string)
    requires s != [] && !IsTrimmed(s[0]) && !IsTrimmed(s[|s| - 1])
    ensures Trim(s) == s
  {
  }

  /**
   * `Character.isLetterOrDigit`, restricted to ASCII: Unicode letter and digit classes are
   * not part of this model.
   */
  predicate IsLetterOrDigit(c: char) {
    ('a' <= c <= 'z') || ('A' <= c <= 'Z') || ('0' <= c <= '9')
  }

  predicate IsDigits(s: string) {
    forall k :: 0 <= k < |s| ==> '0' <= s[k] <= '9'
  }

  /** The number a string of decimal digits denotes, most significant digit first. */
  function DigitsValue(s: string): nat
    requires IsDigits(s)
  {
    if s == [] then 0 else DigitsValue(s[..|s| - 1]) * 10 + (s[|s| - 1] as int - '0' as int)
  }

  /**
   * Decimal rendering of a natural number, as `Integer.toString` writes it: the digits denote
   * `n`, and there is no leading zero.
   */
  function NatToString(n: nat): (r: string)
    ensures r != [] && IsDigits(r)
    ensures DigitsValue(r) == n
    ensures r[0] == '0' ==> r == "0"
    decreases n
  {
    var d := [(n % 10) as char + '0'];
    if n < 10 then d
    else
      var p := NatToString(n / 10);
      assert (p + d)[..|p + d| - 1] == p;
      p + d
  }

  /** Decimal rendering of an integer, with a leading '-' when negative and the digits of `|i|`. */
  function IntToString(i: int): (r: string)
    ensures r != []
    ensures (r[0] == '-') <==> i < 0
    ensures i < 0 ==> IsDigits(r[1..]) && DigitsValue(r[1..]) == -i
    ensures i >= 0 ==> IsDigits(r) && DigitsValue(r) == i
  {
    if i < 0 then
      var p := NatToString(-i);
      assert ("-" + p)[1..] == p;
      "-" + p
    else NatToString(i)
  }

  /**
   * The elements of a sequence in the order a `LinkedHashSet` keeps them: each at its first
   * occurrence.
   */
  function Dedup<T(==,!new)>(s: seq<T>): (r: seq<T>)
    ensures forall x :: x in r <==> x in s
    ensures forall i, j :: 0 <= i < j < |r| ==> r[i] != r[j]
  {
    if s == [] then []
    else
      var prefix := Dedup(s[..|s| - 1]);
      var last := s[|s| - 1];
      assert forall x :: x in s <==> x in s[..|s| - 1] || x == last by {
        assert s == s[..|s| - 1] + [last];
      }
      if last in prefix then prefix else prefix + [last]
  }

  /** The first element is the first one kept. */
  lemma {:induction false} DedupHead<T(!new)>(s: seq<T>)
    requires s != []
    ensures Dedup(s) != [] && Dedup(s)[0] == s[0]
  {
    if |s| > 1 {
      DedupHead(s[..|s| - 1]);
    }
  }

  /** No element occurs twice. */
  ghost predicate Distinct<T>(s: seq<T>) {
    forall i, j :: 0 <= i < j < |s| ==> s[i] != s[j]
  }

  /** A sequence without repetitions is kept as it is. */
  lemma {:induction false} DedupOfDistinct<T(!new)>(s: seq<T>)
    requires Distinct(s)
    ensures Dedup(s) == s
  {
    if s != [] {
      var init := s[..|s| - 1];
      assert Distinct(init);
      DedupOfDistinct(init);
      assert s[|s| - 1] !in init;
      assert init + [s[|s| - 1]] == s;
    }
  }

  /** Appending elements only appends to what is kept. */
  lemma {:induction false} DedupExtends<T(!new)>(s: seq<T>, t: seq<T>)
    ensures |Dedup(s)| <= |Dedup(s + t)| && Dedup(s + t)[..|Dedup(s)|] == Dedup(s)
    decreases |t|
  {
    if t == [] {
      assert s + t == s;
    } else {
      var t0 := t[..|t| - 1];
      DedupExtends(s, t0);
      assert (s + t)[..|s + t| - 1] == s + t0;
    }
  }

  // ---------------------------------------------------------------------------------------
  // Reading a list entry by entry

  /**
   * A loop that reads a list entry by entry, skipping some entries (`None`), keeping the
   * values it reads in order and stopping at the first failure: its result after `n` entries.
   */
  function CollectPresent<T>(outs: seq<Option<Result<T>>>, n: nat): Result<seq<T>>
    requires n <= |outs|
  {
    if n == 0 then Ok([])
    else
      var prefix :- CollectPresent(outs, n - 1);
      if outs[n - 1].None? then Ok(prefix)
      else
        var v :- outs[n - 1].value;
        Ok(prefix + [v])
  }

  /** A failure among the first `k` entries ends the loop with that failure. */
  lemma {:induction false} CollectFailsEarly<T>(outs: seq<Option<Result<T>>>, k: nat, n: nat)
    requires k <= n <= |outs| && CollectPresent(outs, k).Err?
    ensures CollectPresent(outs, n) == CollectPresent(outs, k)
    decreases n - k
  {
    if k < n {
      CollectFailsEarly(outs, k, n - 1);
    }
  }

  /** The outcomes of the entries that are not skipped, in order. */
  function Present<T>(outs: seq<Option<Result<T>>>): (r: seq<Result<T>>)
    ensures |r| <= |outs|
  {
    if outs == [] then []
    else (if outs[0].None? then [] else [outs[0].value]) + Present(outs[1..])
  }

  lemma {:induction false} PresentSnoc<T>(outs: seq<Option<Result<T>>>, o: Option<Result<T>>)
    ensures Present(outs + [o]) == Present(outs) + (if o.None? then [] else [o.value])
  {
    if outs == [] {
      assert [] + [o] == [o];
    } else {
      var h := if outs[0].None? then [] else [outs[0].value];
      var t := if o.None? then [] else [o.value];
      assert (outs + [o])[0] == outs[0];
      assert (outs + [o])[1..] == outs[1..] + [o];
      assert Present(outs + [o]) == h + Present(outs[1..] + [o]);
      PresentSnoc(outs[1..], o);
      assert h + (Present(outs[1..]) + t) == (h + Present(outs[1..])) + t;
    }
  }

  /**
   * The loop succeeds exactly when every entry it does not skip reads, and then its values
   * are those entries' values, in order.
   */
  lemma {:induction false} CollectPrefix<T>(outs: seq<Option<Result<T>>>, n: nat)
    requires n <= |outs|
    ensures var r := CollectPresent(outs, n);
            var pr := Present(outs[..n]);
            (r.Ok? <==> forall k :: 0 <= k < |pr| ==> pr[k].Ok?)
            && (r.Ok? ==> |r.value| == |pr| && forall k :: 0 <= k < |pr| ==> r.value[k] == pr[k].value)
  {
    if n == 0 {
      assert outs[..0] == [];
    } else {
      CollectPrefix(outs, n - 1);
      var o := outs[n - 1];
      assert outs[..n] == outs[..n - 1] + [o];
      PresentSnoc(outs[..n - 1], o);
      var pr0 := Present(outs[..n - 1]);
      var r0 := CollectPresent(outs, n - 1);
      if o.None? {
        assert Present(outs[..n]) == pr0;
        assert CollectPresent(outs, n) == r0;
      } else {
        var pr := pr0 + [o.value];
        assert Present(outs[..n]) == pr;
        assert pr[|pr0|] == o.value;
        assert forall k :: 0 <= k < |pr0| ==> pr[k] == pr0[k];
        if r0.Ok? && o.value.Ok? {
          assert CollectPresent(outs, n) == Ok(r0.value + [o.value.value]);
        }
      }
    }
  }
}
