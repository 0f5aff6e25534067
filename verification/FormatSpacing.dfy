/** The blanks between what a generated printer prints. */
module FormatSpacing {
  // Printing an operation calls the printer piece by piece.  Two pieces run together when one ends in a
  // letter or digit, the next begins with one, and there is nothing between them.

  import opened FormatLexer
  import opened FormatGrammar
  import opened FormatAccepted

  /** The argument of a call that prints types. */
  datatype TypeList =
    | OperandTypes | ResultTypes | OperandGroup(name: string) | OneOperand(name: string) | ResultGroup(name: string)
    | OneResult(name: string)

  /** The calls of a generated printer, with what they ask the op for. */
  datatype Piece =
    | OpName
    | Space
    | Text(value: string)
    | AttrText(name: string, typed: bool)
    | OperandText(name: string) | OperandsText(name: string) | AllOperandsText
    | SuccessorText(name: string) | SuccessorsText(name: string) | AllSuccessorsText
    | OpenArgs | BlockArgs | CloseArgs | RegionText
    | TypeText(types: TypeList) | FunctionText(inputs: TypeList, results: TypeList)
    | SymbolText(name: string)
    | DictText(keyword: bool, elided: seq<string>)

  // ----- How pieces begin and end

  predicate IsWord(value: string) { value != "" && (IsAlpha(value[0]) || value[0] == '_') }

  /** Attributes and types may begin with a letter; operands begin with `%`, successors with `^`, symbols
      with `@`, function types with a parenthesis, and regions and dictionaries with a blank. */
  predicate StartsWord(p: Piece) {
    match p
    case Text(value) => IsWord(value)
    case OpName => true
    case AttrText(_, _) => true
    case TypeText(_) => true
    case _ => false
  }

  predicate EndsWord(p: Piece) {
    match p
    case Text(value) => IsWord(value)
    case Space => false
    case OpenArgs => false
    case CloseArgs => false
    case RegionText => false
    case DictText(_, _) => false
    case _ => true
  }

  /** A list may be empty, and a dictionary too. */
  predicate Vanishes(p: Piece) {
    match p
    case OperandsText(_) => true
    case AllOperandsText => true
    case SuccessorsText(_) => true
    case AllSuccessorsText => true
    case TypeText(types) => !types.OneOperand? && !types.OneResult?
    case DictText(_, _) => true
    case _ => false
  }

  /** A letter or digit may be what has been printed last. */
  predicate Open(ps: seq<Piece>)
    decreases |ps|
  {
    ps != []
    && (EndsWord(ps[|ps| - 1]) || (Vanishes(ps[|ps| - 1]) && Open(ps[..|ps| - 1])))
  }

  predicate Touches(ps: seq<Piece>)
    decreases |ps|
  {
    ps != [] && (Touches(ps[..|ps| - 1]) || (Open(ps[..|ps| - 1]) && StartsWord(ps[|ps| - 1])))
  }

  /** Piece `i` ends in a letter or digit, and all that comes between it and position `j` may be empty. */
  predicate Reaches(ps: seq<Piece>, i: nat, j: nat) {
    i < j <= |ps| && EndsWord(ps[i]) && forall k :: i < k < j ==> Vanishes(ps[k])
  }

  lemma {:induction false} OpenExact(ps: seq<Piece>)
    ensures Open(ps) <==> exists i: nat :: Reaches(ps, i, |ps|)
    decreases |ps|
  {
    if ps != [] {
      var n := |ps| - 1;
      OpenExact(ps[..n]);
      if Open(ps) {
        if EndsWord(ps[n]) {
          assert Reaches(ps, n, |ps|);
        } else {
          var i: nat :| Reaches(ps[..n], i, n);
          assert Reaches(ps, i, |ps|);
        }
      }
      if i: nat :| Reaches(ps, i, |ps|) {
        if i < n {
          assert Reaches(ps[..n], i, n);
        }
      }
    }
  }

  /** What running together means, position by position. */
  lemma {:induction false} TouchesExact(ps: seq<Piece>)
    ensures Touches(ps) <==> exists i: nat, j: nat :: j < |ps| && Reaches(ps, i, j) && StartsWord(ps[j])
    decreases |ps|
  {
    if ps != [] {
      var n := |ps| - 1;
      TouchesExact(ps[..n]);
      OpenExact(ps[..n]);
      hide Open, StartsWord, EndsWord, Vanishes;
      if Touches(ps[..n]) {
        var i: nat, j: nat :| j < n && Reaches(ps[..n], i, j) && StartsWord(ps[..n][j]);
        assert Reaches(ps, i, j) && StartsWord(ps[j]);
      }
      if Open(ps[..n]) && StartsWord(ps[n]) {
        var i: nat :| Reaches(ps[..n], i, n);
        assert Reaches(ps, i, n);
      }
      if i: nat, j: nat :| j < |ps| && Reaches(ps, i, j) && StartsWord(ps[j]) {
        assert Reaches(ps[..n], i, j);
      }
    }
  }

  // ----- The two flags

  datatype Flags = Flags(emitSpace: bool, punctuation: bool)

  const START := Flags(true, false)

  /** No blank before certain punctuation. */
  predicate BlankBefore(value: string, s: Flags)
    requires value != ""
  {
    s.emitSpace && ((|value| != 1 && value != "->")
                    || (if s.punctuation then value[0] !in ">)}]," else value[0] !in "<>(){}[],"))
  }

  function AfterText(value: string): Flags
    requires value != ""
  {
    Flags(|value| != 1 || value[0] !in "<({[", !(value[0] == '_' || IsAlpha(value[0])))
  }

  /** The attribute dictionary takes care of its own blank. */
  predicate Blank(op: OpInfo, e: Element, s: Flags)
    requires WfLeaf(op, e)
  {
    match e
    case Lit(value) => BlankBefore(value, s)
    case AttrDict(_) => false
    case _ => s.emitSpace || !s.punctuation
  }

  function FlagsAfter(op: OpInfo, e: Element, s: Flags): Flags
    requires WfLeaf(op, e)
  {
    match e
    case Lit(value) => AfterText(value)
    case AttrDict(_) => Flags(s.emitSpace, false)
    case _ => Flags(true, false)
  }

  function LeavesAfter(op: OpInfo, es: seq<Element>, s: Flags): Flags
    requires forall e :: e in es ==> WfLeaf(op, e)
  {
    if es == [] then s else FlagsAfter(op, es[|es| - 1], LeavesAfter(op, es[..|es| - 1], s))
  }

  /** The generator goes through a group whether or not the printer will print it. */
  function ElementAfter(op: OpInfo, e: Element, s: Flags): Flags
    requires WfElement(op, e)
  {
    if e.Opt? then LeavesAfter(op, e.elements, s) else FlagsAfter(op, e, s)
  }

  function ElementsAfter(op: OpInfo, es: seq<Element>, s: Flags): Flags
    requires forall e :: e in es ==> WfElement(op, e)
  {
    if es == [] then s else ElementAfter(op, es[|es| - 1], ElementsAfter(op, es[..|es| - 1], s))
  }

  // ----- The pieces of an element

  function TypesOf(op: OpInfo, a: Element): TypeList
    requires IsTypeArg(op, a)
  {
    match a
    case AllOperands => OperandTypes
    case AllResults => ResultTypes
    case OperandVar(i) =>
      if op.operands[i].variadic then OperandGroup(op.operands[i].name) else OneOperand(op.operands[i].name)
    case ResultVar(i) =>
      if op.results[i].variadic then ResultGroup(op.results[i].name) else OneResult(op.results[i].name)
  }

  /** `elided` are the attributes that the dictionary leaves out; a region is printed by several calls. */
  function PieceOf(op: OpInfo, e: Element, elided: seq<string>): Piece
    requires WfLeaf(op, e)
  {
    match e
    case Lit(value) => Text(value)
    case AttrVar(i) => AttrText(op.attrs[i].name, op.attrs[i].builder.None?)
    case OperandVar(i) =>
      if op.operands[i].variadic then OperandsText(op.operands[i].name) else OperandText(op.operands[i].name)
    case SuccessorVar(i) =>
      if op.successors[i].variadic then SuccessorsText(op.successors[i].name) else SuccessorText(op.successors[i].name)
    case RegionVar(_) => RegionText
    case AttrDict(keyword) => DictText(keyword, elided)
    case AllOperands => AllOperandsText
    case AllSuccessors => AllSuccessorsText
    case TypeDir(a) => TypeText(TypesOf(op, a))
    case FunctionalType(a, b) => FunctionText(TypesOf(op, a), TypesOf(op, b))
    case SymbolDir(a) => SymbolText(op.attrs[a.attr].name)
  }

  /** What a leaf prints; `args` says whether a region has blocks, whose arguments are printed then. */
  function LeafPieces(op: OpInfo, e: Element, elided: seq<string>, s: Flags, args: bool): seq<Piece>
    requires WfLeaf(op, e)
  {
    (if Blank(op, e, s) then [Space] else [])
    + (if e.RegionVar? && args then [OpenArgs, BlockArgs, CloseArgs] else [])
    + [PieceOf(op, e, elided)]
  }

  // ----- One pass over the format

  /** The flags after some elements, whether a letter or digit may be what some run has printed last,
      and whether no run has printed two words that touch. */
  datatype Pass = Pass(flags: Flags, open: bool, apart: bool)

  function LeafPass(op: OpInfo, e: Element, c: Pass): Pass
    requires WfLeaf(op, e)
  {
    var p := PieceOf(op, e, []);
    Pass(FlagsAfter(op, e, c.flags), EndsWord(p) || (e.AttrDict? && c.open),
         c.apart && !(c.open && StartsWord(p) && !Blank(op, e, c.flags)))
  }

  function LeavesPass(op: OpInfo, es: seq<Element>, c: Pass): Pass
    requires forall e :: e in es ==> WfLeaf(op, e)
  {
    if es == [] then c else LeafPass(op, es[|es| - 1], LeavesPass(op, es[..|es| - 1], c))
  }

  /** A group may be left out. */
  function ElementPass(op: OpInfo, e: Element, c: Pass): Pass
    requires WfElement(op, e)
  {
    if !e.Opt? then LeafPass(op, e, c)
    else var inner := LeavesPass(op, e.elements, c); Pass(inner.flags, inner.open || c.open, inner.apart)
  }

  function ElementsPass(op: OpInfo, es: seq<Element>): Pass
    requires forall e :: e in es ==> WfElement(op, e)
  {
    if es == [] then Pass(START, true, true) else ElementPass(op, es[|es| - 1], ElementsPass(op, es[..|es| - 1]))
  }

  /** The pass as it is for one run: what has been printed so far. */
  function PassOf(s: Flags, ps: seq<Piece>): Pass { Pass(s, Open(ps), !Touches(ps)) }

  lemma OneMore(ps: seq<Piece>, p: Piece)
    ensures Open(ps + [p]) <==> EndsWord(p) || (Vanishes(p) && Open(ps))
    ensures Touches(ps + [p]) <==> Touches(ps) || (Open(ps) && StartsWord(p))
  {
    assert (ps + [p])[..|ps|] == ps;
  }

  /** For straight-line printing the pass is exact. */
  lemma LeafRun(op: OpInfo, e: Element, elided: seq<string>, s: Flags, args: bool, ps: seq<Piece>)
    requires WfLeaf(op, e)
    ensures PassOf(FlagsAfter(op, e, s), ps + LeafPieces(op, e, elided, s, args)) == LeafPass(op, e, PassOf(s, ps))
  {
    hide Open, Touches, BlankBefore, AfterText;
    var q := if Blank(op, e, s) then ps + [Space] else ps;
    if Blank(op, e, s) {
      OneMore(ps, Space);
    }
    var p := PieceOf(op, e, elided);
    if e.RegionVar? && args {
      RegionRun(q, p);
      assert ps + LeafPieces(op, e, elided, s, args) == q + [OpenArgs] + [BlockArgs] + [CloseArgs] + [p];
    } else {
      OneMore(q, p);
      assert ps + LeafPieces(op, e, elided, s, args) == q + [p];
    }
  }

  lemma RegionRun(q: seq<Piece>, p: Piece)
    requires p == RegionText
    ensures var r := q + [OpenArgs] + [BlockArgs] + [CloseArgs] + [p]; !Open(r) && Touches(r) == Touches(q)
  {
    hide Open, Touches;
    OneMore(q, OpenArgs);
    OneMore(q + [OpenArgs], BlockArgs);
    OneMore(q + [OpenArgs] + [BlockArgs], CloseArgs);
    OneMore(q + [OpenArgs] + [BlockArgs] + [CloseArgs], p);
  }
}
