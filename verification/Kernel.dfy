/** Values every other module needs: options, results, ids, instants and text.

    - `Attempt` is what a use case hands back: its value, or the reason there is none. A business
      error is a value (`Rejected`); an exception, be it a dropped connection or a violated
      constraint, is `Threw`.
    - `Done` is the outcome of one database statement.
 */
module Kernel {

  datatype Option<+T> = None | Some(value: T)

  /** Ids are opaque: only equality, and an arbitrary total order, is ever used. */
  type Id = nat

  /** Milliseconds, as `Date.getTime()` gives them. */
  type Time = int

  datatype TicketingError =
    | InvalidTicketSubject
    | InvalidTicketDescription
    | TicketNotFound
    | InvalidTicketTransition
    | TicketClosed
    | AssigneeNotFound
    | EmptyComment
    | InvalidSlaTarget

  datatype Failure = Rejected(error: TicketingError) | Threw

  datatype Attempt<+T> = Ok(value: T) | Err(failure: Failure) {
    predicate IsFailure() {
      Err?
    }

    function PropagateFailure<U>(): Attempt<U>
      requires Err?
    {
      Err(failure)
    }

    function Extract(): T
      requires Ok?
    {
      value
    }
  }

  datatype Done = Done | Broke {
    predicate IsFailure() {
      Broke?
    }

    function PropagateFailure<U>(): Attempt<U>
      requires Broke?
    {
      Err(Threw)
    }
  }

  /** What becomes of one addition to a queue: it arrives, it is dropped, or it arrives and the answer is
      lost, so that whoever added it sees it throw. */
  datatype Fate = Arrives | Dropped | AnswerLost

  /** The elements of `s` that satisfy `p`, in order. */
  ghost function Filter<T>(p: T -> bool, s: seq<T>): seq<T> {
    if |s| == 0 then []
    else
      var rest := Filter(p, s[..|s| - 1]);
      if p(s[|s| - 1]) then rest + [s[|s| - 1]] else rest
  }

  lemma FilterAppend<T>(p: T -> bool, s: seq<T>, x: T)
    ensures Filter(p, s + [x]) == if p(x) then Filter(p, s) + [x] else Filter(p, s)
  {
    assert (s + [x])[..|s|] == s;
  }

  // ----------------------------------------------------------------- text

  /** JavaScript strings are sequences of UTF-16 code units; `length` counts those. */
  type CodeUnit = n: int | 0 <= n < 0x1_0000

  type Text = seq<CodeUnit>

  /** What `String.prototype.trim` removes: white space and line terminators of ECMA-262. */
  predicate IsBlank(c: CodeUnit) {
    || 0x09 <= c <= 0x0D
    || c == 0x20
    || c == 0xA0
    || c == 0x1680
    || 0x2000 <= c <= 0x200A
    || c == 0x2028
    || c == 0x2029
    || c == 0x202F
    || c == 0x205F
    || c == 0x3000
    || c == 0xFEFF
  }

  function TrimStart(s: Text): Text {
    if s == [] || !IsBlank(s[0]) then s else TrimStart(s[1..])
  }

  function TrimEnd(s: Text): Text {
    if s == [] || !IsBlank(s[|s| - 1]) then s else TrimEnd(s[..|s| - 1])
  }

  function Trim(s: Text): Text {
    TrimEnd(TrimStart(s))
  }

  predicate AllBlank(s: Text) {
    forall i :: 0 <= i < |s| ==> IsBlank(s[i])
  }

  /** Where a trimmed start begins: what comes before is blank, what comes there is not. */
  lemma {:induction false} TrimStartIsSuffix(s: Text) returns (i: nat)
    ensures i <= |s| && TrimStart(s) == s[i..] && AllBlank(s[..i]) && (i < |s| ==> !IsBlank(s[i]))
  {
    if s == [] || !IsBlank(s[0]) {
      i := 0;
    } else {
      var j := TrimStartIsSuffix(s[1..]);
      i := j + 1;
      assert s[1..][j..] == s[i..] && s[..i] == [s[0]] + s[1..][..j];
    }
  }

  /** Where a trimmed end stops. */
  lemma {:induction false} TrimEndIsPrefix(s: Text) returns (j: nat)
    ensures j <= |s| && TrimEnd(s) == s[..j] && AllBlank(s[j..]) && (0 < j ==> !IsBlank(s[j - 1]))
  {
    if s == [] || !IsBlank(s[|s| - 1]) {
      j := |s|;
    } else {
      var init := s[..|s| - 1];
      j := TrimEndIsPrefix(init);
      assert s == init + [s[|s| - 1]];
      assert init[..j] == s[..j] && s[j..] == init[j..] + [s[|s| - 1]];
    }
  }

  /** Trimming cuts the blanks off both ends and nothing else: what is left neither starts nor ends with one. */
  lemma TrimIsMiddle(s: Text) returns (i: nat, j: nat)
    ensures i <= j <= |s| && Trim(s) == s[i..j] && AllBlank(s[..i]) && AllBlank(s[j..])
    ensures i < j ==> !IsBlank(s[i]) && !IsBlank(s[j - 1])
  {
    i := TrimStartIsSuffix(s);
    var k := TrimEndIsPrefix(s[i..]);
    j := i + k;
    assert s[i..][..k] == s[i..j] && s[i..][k..] == s[j..];
  }

  /** Only a text made of blanks trims to nothing, so "required" means "has a visible character". */
  lemma TrimIsEmptyIffBlank(s: Text)
    ensures Trim(s) == [] <==> forall i :: 0 <= i < |s| ==> IsBlank(s[i])
  {
    var i, j := TrimIsMiddle(s);
    if i < j {
      assert !IsBlank(s[i]);
    } else {
      assert s == s[..i] + s[j..];
    }
  }
}
