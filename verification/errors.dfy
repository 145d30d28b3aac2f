/**
 * The exception classes the container raises or lets through, with Ruby's own
 * superclass chain, and the `Wirer::Error` behaviours: a message that falls back
 * to the cause's, and a backtrace that splices in the cause's backtrace after
 * dropping the frames the two have in common.
 */
module Errors {
  import opened Base

  datatype ErrorClass =
    | Exception
    | ScriptError
    | NotImplementedError
    | StandardError
    | RuntimeError
    | ArgumentError
    | TypeError
    | NameError
    | NoMethodError
    | WirerError                   // Wirer::Error
    | DependencyFindingError
    | CyclicDependencyError
    | DependencyConstructionError
    | UserError(name: string)      // an application's own StandardError subclass

  /** Ruby's `superclass` for each exception class. */
  function Superclass(c: ErrorClass): Option<ErrorClass> {
    match c
    case Exception => None
    case ScriptError => Some(Exception)
    case NotImplementedError => Some(ScriptError)
    case StandardError => Some(Exception)
    case RuntimeError => Some(StandardError)
    case ArgumentError => Some(StandardError)
    case TypeError => Some(StandardError)
    case NameError => Some(StandardError)
    case NoMethodError => Some(NameError)
    case WirerError => Some(StandardError)
    case DependencyFindingError => Some(WirerError)
    case CyclicDependencyError => Some(WirerError)
    case DependencyConstructionError => Some(WirerError)
    case UserError(_) => Some(StandardError)
  }

  /** Distance from `Exception`; strictly smaller for the superclass. */
  function Depth(c: ErrorClass): nat {
    match c
    case Exception => 0
    case ScriptError => 1
    case StandardError => 1
    case NotImplementedError => 2
    case RuntimeError => 2
    case ArgumentError => 2
    case TypeError => 2
    case NameError => 2
    case WirerError => 2
    case UserError(_) => 2
    case NoMethodError => 3
    case DependencyFindingError => 3
    case CyclicDependencyError => 3
    case DependencyConstructionError => 3
  }

  /** Ruby `c <= d` on exception classes: `d` is `c` or one of its ancestors. */
  predicate IsA(c: ErrorClass, d: ErrorClass)
    decreases Depth(c)
  {
    c == d || (Superclass(c).Some? && IsA(Superclass(c).value, d))
  }

  /** Ruby's `rescue Wirer::Error`. */
  predicate IsWirerError(c: ErrorClass) {
    IsA(c, WirerError)
  }

  /** Ruby's bare `rescue => e`, which only catches StandardError descendants. */
  predicate IsStandardError(c: ErrorClass) {
    IsA(c, StandardError)
  }

  /**
   * The three specific errors are Wirer errors, and nothing outside the Wirer
   * family is; every Wirer error is a StandardError.
   */
  lemma {:induction false} WirerFamily(c: ErrorClass)
    ensures IsWirerError(c) <==> c in {WirerError, DependencyFindingError, CyclicDependencyError, DependencyConstructionError}
    ensures IsWirerError(c) ==> IsStandardError(c)
  {
    match c
    case Exception =>
    case ScriptError =>
    case NotImplementedError => assert !IsA(ScriptError, WirerError);
    case StandardError =>
    case RuntimeError =>
    case ArgumentError =>
    case TypeError =>
    case NameError =>
    case NoMethodError => assert !IsA(NameError, WirerError);
    case WirerError =>
    case DependencyFindingError =>
    case CyclicDependencyError =>
    case DependencyConstructionError =>
    case UserError(_) => assert !IsA(StandardError, WirerError);
  }

  /** Only `NotImplementedError` and its ancestors outside StandardError escape a bare `rescue`. */
  lemma {:induction false} StandardFamily(c: ErrorClass)
    ensures !IsStandardError(c) <==> c in {Exception, ScriptError, NotImplementedError}
  {
    match c
    case NotImplementedError => assert !IsA(ScriptError, StandardError);
    case NoMethodError => assert IsA(NameError, StandardError);
    case DependencyFindingError => assert IsA(WirerError, StandardError);
    case CyclicDependencyError => assert IsA(WirerError, StandardError);
    case DependencyConstructionError => assert IsA(WirerError, StandardError);
    case Exception => assert !IsA(Exception, StandardError);
    case ScriptError => assert !IsA(Exception, StandardError);
    case StandardError =>
    case RuntimeError =>
    case ArgumentError =>
    case TypeError =>
    case NameError =>
    case WirerError =>
    case UserError(_) => assert IsA(StandardError, StandardError);
  }

  /** The class name Ruby reports, which is also a message-less exception's message. */
  function ClassName(c: ErrorClass): string {
    match c
    case Exception => "Exception"
    case ScriptError => "ScriptError"
    case NotImplementedError => "NotImplementedError"
    case StandardError => "StandardError"
    case RuntimeError => "RuntimeError"
    case ArgumentError => "ArgumentError"
    case TypeError => "TypeError"
    case NameError => "NameError"
    case NoMethodError => "NoMethodError"
    case WirerError => "Wirer::Error"
    case DependencyFindingError => "Wirer::DependencyFindingError"
    case CyclicDependencyError => "Wirer::CyclicDependencyError"
    case DependencyConstructionError => "Wirer::DependencyConstructionError"
    case UserError(n) => n
  }

  /** A raised exception object: class, message, optional cause and backtrace. */
  datatype Exn = Exn(cls: ErrorClass, message: string, cause: Option<Exn>, backtrace: seq<string>)

  /**
   * `Wirer::Error.new(msg, cause)`: the message is `msg` when given, otherwise
   * the cause's message, otherwise Ruby's default (the class name). The cause
   * is the one passed; Ruby's default of the exception being handled is the
   * caller's to supply.
   */
  function NewError(cls: ErrorClass, msg: Option<string>, cause: Option<Exn>): (e: Exn)
    requires IsWirerError(cls)
    ensures e.cls == cls && e.cause == cause && e.backtrace == []
    ensures msg.Some? ==> e.message == msg.value
    ensures msg.None? && cause.Some? ==> e.message == cause.value.message
    ensures msg.None? && cause.None? ==> e.message == ClassName(cls)
  {
    var text := match msg
      case Some(m) => m
      case None => match cause
        case Some(c) => c.message
        case None => ClassName(cls);
    Exn(cls, text, cause, [])
  }

  /**
   * Length of the longest common suffix of `a` and `b`: the frames a wrapper's
   * backtrace shares with its cause's.
   */
  function CommonSuffix(a: seq<string>, b: seq<string>): (k: nat)
    ensures k <= |a| && k <= |b|
    ensures forall i :: |a| - k <= i < |a| ==> a[i] == b[i + |b| - |a|]
    ensures k == |a| || k == |b| || a[|a| - 1 - k] != b[|b| - 1 - k]
  {
    if |a| == 0 || |b| == 0 || a[|a| - 1] != b[|b| - 1] then 0
    else 1 + CommonSuffix(a[..|a| - 1], b[..|b| - 1])
  }

  /**
   * The trimming loop of `set_backtrace`: walk the cause's backtrace from its
   * end, popping `bt`'s last line while the two agree.
   */
  method TrimSharedFrames(bt: seq<string>, causeBt: seq<string>) returns (trimmed: seq<string>)
    ensures trimmed == bt[..|bt| - CommonSuffix(bt, causeBt)]
  {
    trimmed := bt;
    var i := |causeBt|;
    while i > 0 && |trimmed| > 0 && trimmed[|trimmed| - 1] == causeBt[i - 1]
      invariant 0 <= i <= |causeBt|
      invariant |causeBt| - i == |bt| - |trimmed|
      invariant trimmed == bt[..|trimmed|]
      invariant forall j :: |trimmed| <= j < |bt| ==> bt[j] == causeBt[j + |causeBt| - |bt|]
      decreases i
    {
      trimmed := trimmed[..|trimmed| - 1];
      i := i - 1;
    }
    CommonSuffixMaximal(bt, causeBt, |bt| - |trimmed|);
  }

  /** A common suffix that cannot be extended is the longest one. */
  lemma {:induction false} CommonSuffixMaximal(a: seq<string>, b: seq<string>, k: nat)
    requires k <= |a| && k <= |b|
    requires forall i :: |a| - k <= i < |a| ==> a[i] == b[i + |b| - |a|]
    requires k == |a| || k == |b| || a[|a| - 1 - k] != b[|b| - 1 - k]
    ensures CommonSuffix(a, b) == k
  {
  }

  /** The line `set_backtrace` inserts between the two backtraces. */
  function CauseLine(cause: Exn): string {
    "cause: " + ClassName(cause.cls) + ": " + cause.message
  }

  /**
   * `set_backtrace(bt)`: without a cause `bt` is stored as given; with one, the
   * frames shared with the cause's backtrace are dropped from the end of `bt`,
   * then one cause line and the cause's whole backtrace are appended.
   */
  function SetBacktrace(e: Exn, bt: seq<string>): (r: Exn)
    ensures r.cls == e.cls && r.message == e.message && r.cause == e.cause
    ensures e.cause.None? ==> r.backtrace == bt
    ensures e.cause.Some? ==>
      var cbt := e.cause.value.backtrace;
      var k := CommonSuffix(bt, cbt);
      && r.backtrace == bt[..|bt| - k] + [CauseLine(e.cause.value)] + cbt
      && |r.backtrace| == |bt| - k + 1 + |cbt|
      && r.backtrace[|r.backtrace| - |cbt|..] == cbt
  {
    match e.cause
    case None => e.(backtrace := bt)
    case Some(c) =>
      var k := CommonSuffix(bt, c.backtrace);
      var spliced := bt[..|bt| - k] + [CauseLine(c)] + c.backtrace;
      assert spliced[|spliced| - |c.backtrace|..] == c.backtrace;
      e.(backtrace := spliced)
  }
}
