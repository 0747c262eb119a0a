/** The slice of Halide's intermediate representation that the copy-elision
    analysis reads: expressions (with the Call node inspected structurally),
    extern-definition arguments and Functions. Everything is an immutable
    value; "structural equality" of expressions is Dafny's `==`. */
module HalideIR {

  datatype Option<+T> = None | Some(value: T)

  /** The kinds of Call node. Only `Halide` (a call to another Function of
      the pipeline) can make a function a copy. */
  datatype CallType = Image | Extern | ExternCPlusPlus | PureExtern | Halide | Intrinsic | PureIntrinsic

  datatype BinaryOp = Add | Sub | Mul | Div | Min | Max

  /** An expression tree. A `Call` records:
      - `callArgs`: the argument expressions written at the call site;
      - `valueIndex`: which tuple component of the callee is read;
      - `calleeArgs`: the pure-definition arguments of the called Function
        (its dimensionality is their number);
      - `calleeOutputs`: the number of tuple components of the called
        Function, which the analysis as written never reads. */
  datatype Expr =
    | Var(varName: string)
    | IntImm(intValue: int)
    | Binary(op: BinaryOp, a: Expr, b: Expr)
    | Call(callType: CallType, name: string, callArgs: seq<Expr>, valueIndex: int, calleeArgs: seq<Expr>, calleeOutputs: nat)

  /** One argument of an extern definition. The closed sum leaves no room for
      a malformed argument kind. */
  datatype ExternArg =
    | ExprArg(expr: Expr)
    | FuncArg(funcName: string)
    | BufferArg(bufferName: string)
    | ImageParamArg(paramName: string)

  datatype ExternDefinition = ExternDefinition(externName: string, externArgs: seq<ExternArg>)

  /** A Function of the pipeline. `args` are the pure-definition index
      variables, `values` the tuple components of the pure definition.
      `inlined` stands for the schedule's "compute level is inlined" signal
      and `directCalls` for the names of the Functions it calls directly,
      both supplied from outside the analysis. */
  datatype Function = Function(
    name: string,
    args: seq<Expr>,
    values: seq<Expr>,
    hasUpdate: bool,
    extern: Option<ExternDefinition>,
    inlined: bool,
    directCalls: set<string>)
  {
    /** Dimensionality: the number of pure-definition arguments. */
    function Dimensions(): nat {
      |args|
    }
  }

  /** The name of the one extern that is treated as a buffer copy. */
  const BufferCopyExtern: string := "halide_buffer_copy"

  predicate IsHalideCall(e: Expr) {
    e.Call? && e.callType == Halide
  }
}
