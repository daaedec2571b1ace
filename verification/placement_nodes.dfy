/**
 The procedural-placement graph nodes of the editor and how they lower
 themselves into an expression AST (`ezExpressionAST`), plus the field order
 in which a layer output is saved.

 The AST is an arena: creating a node appends it and returns its index, and
 a node refers to its operands by index, so one node may be the operand of
 several others. A null node pointer is `None`. Float constants are kept
 symbolic: a literal as its bit pattern, everything computed from
 properties as the computation's name and inputs.
 */
module PlacementNodes {
  import opened Wrappers
  import opened Stream

  /** The symbolic value of a constant node. */
  datatype Num =
    | Lit(bits: FloatBits)                                             // a float literal
    | IntToFloat(value: int)                                           // an integer converted to float
    | HeightScale(minHeight: FloatBits, maxHeight: FloatBits, fade: FloatBits) // (max - min) * fade
    | FadeFactor(fade: FloatBits)                                      // 0.5 / fade

  const One: Num := Lit(0x3F80_0000)         // 1.0f
  const Eleven: Num := Lit(0x4130_0000)      // 11.0f
  const Thirteen: Num := Lit(0x4150_0000)    // 13.0f
  const Seventeen: Num := Lit(0x4188_0000)   // 17.0f
  const TwoFiftyFive: Num := Lit(0x437F_0000) // 255.0f

  /** The per-point inputs these nodes read. */
  datatype InputKind = PointIndex | PositionZ

  datatype BinaryOp = Add | Subtract | Multiply | Divide
  datatype UnaryOp = Absolute

  type NodeRef = nat

  datatype Node =
    | Constant(value: Num)
    | Input(input: InputKind)
    | Binary(op: BinaryOp, left: NodeRef, right: NodeRef)
    | Unary(uop: UnaryOp, operand: NodeRef)
    | Call(name: string, args: seq<NodeRef>)

  datatype Ast = Ast(nodes: seq<Node>, outputs: seq<Option<NodeRef>>)

  /** A node's operands were all created before it. */
  predicate OperandsBelow(n: Node, bound: nat) {
    match n
    case Constant(_) => true
    case Input(_) => true
    case Binary(_, l, r) => l < bound && r < bound
    case Unary(_, x) => x < bound
    case Call(_, args) => forall k :: 0 <= k < |args| ==> args[k] < bound
  }

  predicate Refers(ast: Ast, ref: Option<NodeRef>) {
    ref.Some? ==> ref.value < |ast.nodes|
  }

  /** Every operand and every output names an existing node, and the arena has no cycles. */
  predicate WellFormed(ast: Ast) {
    && (forall i :: 0 <= i < |ast.nodes| ==> OperandsBelow(ast.nodes[i], i))
    && (forall k :: 0 <= k < |ast.outputs| ==> Refers(ast, ast.outputs[k]))
  }

  /** `b` holds every node of `a`, unchanged and at the same index. */
  predicate Extends(a: Ast, b: Ast) {
    |a.nodes| <= |b.nodes| && b.nodes[..|a.nodes|] == a.nodes
  }

  // ---------------------------------------------------------------------
  // The expression a node denotes

  datatype Expr =
    | EConst(value: Num)
    | EInput(input: InputKind)
    | EBinary(op: BinaryOp, left: Expr, right: Expr)
    | EUnary(uop: UnaryOp, operand: Expr)
    | ECall(name: string, args: seq<Expr>)

  /** The expression tree rooted at a node, with shared operands written out once per use. */
  function Tree(ast: Ast, ref: NodeRef): Expr
    requires WellFormed(ast) && ref < |ast.nodes|
    decreases ref
  {
    match ast.nodes[ref]
    case Constant(v) => EConst(v)
    case Input(i) => EInput(i)
    case Binary(op, l, r) => EBinary(op, Tree(ast, l), Tree(ast, r))
    case Unary(op, x) => EUnary(op, Tree(ast, x))
    case Call(name, args) => ECall(name, seq(|args|, k requires 0 <= k < |args| => Tree(ast, args[k])))
  }

  /** Appending nodes never changes what an existing node denotes. */
  lemma {:induction false} TreeStable(a: Ast, b: Ast, ref: NodeRef)
    requires WellFormed(a) && WellFormed(b) && Extends(a, b) && ref < |a.nodes|
    ensures Tree(b, ref) == Tree(a, ref)
    decreases ref
  {
    assert b.nodes[ref] == b.nodes[..|a.nodes|][ref] == a.nodes[ref];
    match a.nodes[ref]
    case Constant(_) =>
    case Input(_) =>
    case Binary(_, l, r) =>
      TreeStable(a, b, l);
      TreeStable(a, b, r);
    case Unary(_, x) =>
      TreeStable(a, b, x);
    case Call(_, args) =>
      forall k | 0 <= k < |args|
        ensures Tree(b, args[k]) == Tree(a, args[k])
      {
        TreeStable(a, b, args[k]);
      }
  }

  // ---------------------------------------------------------------------
  // Creating nodes

  datatype Created = Created(ast: Ast, node: NodeRef)

  /** `CreateConstant`, `CreateInput`, `CreateBinaryOperator`, ...: append one node. */
  function Create(ast: Ast, n: Node): (r: Created)
    ensures r.ast.nodes == ast.nodes + [n] && r.ast.outputs == ast.outputs
    ensures r.node == |ast.nodes| && r.ast.nodes[r.node] == n
    ensures Extends(ast, r.ast)
    ensures WellFormed(ast) && OperandsBelow(n, |ast.nodes|) ==> WellFormed(r.ast)
  {
    var r := Created(Ast(ast.nodes + [n], ast.outputs), |ast.nodes|);
    assert r.ast.nodes[..|ast.nodes|] == ast.nodes;
    r
  }

  lemma ExtendsTransitive(a: Ast, b: Ast, c: Ast)
    requires Extends(a, b) && Extends(b, c)
    ensures Extends(a, c)
  {
    assert c.nodes[..|a.nodes|] == c.nodes[..|b.nodes|][..|a.nodes|];
  }

  /** The expression `CreateRandom(seed)` builds. */
  function RandomTree(seed: Num): Expr {
    ECall("Random", [EBinary(Add, EInput(PointIndex), EConst(seed))])
  }

  /**
   `CreateRandom`: a call of "Random" with the single argument
   point index + seed.
   */
  function CreateRandom(ast: Ast, seed: Num): (r: Created)
    ensures Extends(ast, r.ast) && r.ast.outputs == ast.outputs
    ensures r.node == |r.ast.nodes| - 1 && |ast.nodes| <= r.node
    ensures r.ast.nodes[r.node].Call? && |r.ast.nodes[r.node].args| == 1
    ensures WellFormed(ast) ==> WellFormed(r.ast) && Tree(r.ast, r.node) == RandomTree(seed)
  {
    var index := Create(ast, Input(PointIndex));
    var constant := Create(index.ast, Constant(seed));
    var sum := Create(constant.ast, Binary(Add, index.node, constant.node));
    var call := Create(sum.ast, Call("Random", [sum.node]));
    ExtendsTransitive(ast, index.ast, constant.ast);
    ExtendsTransitive(ast, constant.ast, sum.ast);
    ExtendsTransitive(ast, sum.ast, call.ast);
    if WellFormed(ast) then
      RandomShape(call.ast, index.node, constant.node, sum.node, call.node, seed);
      call
    else call
  }

  /** The four nodes of a random expression denote it. */
  lemma RandomShape(ast: Ast, index: NodeRef, constant: NodeRef, sum: NodeRef, call: NodeRef, seed: Num)
    requires WellFormed(ast) && index < |ast.nodes| && constant < |ast.nodes| && sum < |ast.nodes| && call < |ast.nodes|
    requires ast.nodes[index] == Input(PointIndex) && ast.nodes[constant] == Constant(seed)
    requires ast.nodes[sum] == Binary(Add, index, constant) && ast.nodes[call] == Call("Random", [sum])
    ensures Tree(ast, call) == RandomTree(seed)
  {
    assert Tree(ast, sum) == EBinary(Add, EInput(PointIndex), EConst(seed));
    assert Tree(ast, call).args == [Tree(ast, sum)];
  }

  // ---------------------------------------------------------------------
  // Layer output

  /** The output slots of a layer, in the order of its pins. */
  const Density: nat := 0
  const Scale: nat := 1
  const ColorIndex: nat := 2
  const ObjectIndex: nat := 3

  /** `ezProceduralPlacementLayerOutput`'s properties. */
  datatype LayerOutput = LayerOutput(
    active: bool,
    name: string,
    objects: seq<string>,
    footprint: FloatBits,
    minOffset: Vec3,
    maxOffset: Vec3,
    alignToNormal: FloatBits,
    minScale: Vec3,
    maxScale: Vec3,
    colorGradient: string,
    cullDistance: FloatBits,
    collisionLayer: u8,
    byteCodeIndex: u32)

  /** A null output slot gets a new constant node. */
  function DefaultConstant(ast: Ast, slot: nat, value: Num): (r: Ast)
    requires slot < |ast.outputs|
    ensures Extends(ast, r) && |r.outputs| == |ast.outputs| && r.outputs[slot].Some?
    ensures r.outputs == ast.outputs[slot := r.outputs[slot]]
    ensures ast.outputs[slot].Some? ==> r == ast
    ensures WellFormed(ast) ==> WellFormed(r)
    ensures WellFormed(ast) && ast.outputs[slot].None? ==>
      Tree(r, r.outputs[slot].value) == EConst(value)
  {
    if ast.outputs[slot].Some? then ast
    else
      var c := Create(ast, Constant(value));
      var r := c.ast.(outputs := c.ast.outputs[slot := Some(c.node)]);
      if WellFormed(ast) then
        TreeStable(c.ast, r, c.node);
        r
      else r
  }

  /** A null output slot gets a new random expression. */
  function DefaultRandom(ast: Ast, slot: nat, seed: Num): (r: Ast)
    requires slot < |ast.outputs|
    ensures Extends(ast, r) && |r.outputs| == |ast.outputs| && r.outputs[slot].Some?
    ensures r.outputs == ast.outputs[slot := r.outputs[slot]]
    ensures ast.outputs[slot].Some? ==> r == ast
    ensures WellFormed(ast) ==> WellFormed(r)
    ensures WellFormed(ast) && ast.outputs[slot].None? ==>
      Tree(r, r.outputs[slot].value) == RandomTree(seed)
  {
    if ast.outputs[slot].Some? then ast
    else
      var c := CreateRandom(ast, seed);
      var r := c.ast.(outputs := c.ast.outputs[slot := Some(c.node)]);
      if WellFormed(ast) then
        TreeStable(c.ast, r, c.node);
        r
      else r
  }

  /** An output slot replaced by factor * (what it held). */
  function ScaleOutput(ast: Ast, slot: nat, factor: Num): (r: Ast)
    requires slot < |ast.outputs| && ast.outputs[slot].Some?
    ensures Extends(ast, r) && |r.outputs| == |ast.outputs| && r.outputs[slot].Some?
    ensures r.outputs == ast.outputs[slot := r.outputs[slot]]
    ensures r.outputs[slot].value < |r.nodes|
    ensures r.nodes[r.outputs[slot].value].Binary?
    ensures r.nodes[r.outputs[slot].value].op == Multiply
    ensures r.nodes[r.outputs[slot].value].right == ast.outputs[slot].value
    ensures WellFormed(ast) ==> WellFormed(r)
    ensures WellFormed(ast) ==>
      Tree(r, r.outputs[slot].value) == EBinary(Multiply, EConst(factor), Tree(ast, ast.outputs[slot].value))
  {
    var c := Create(ast, Constant(factor));
    var m := Create(c.ast, Binary(Multiply, c.node, ast.outputs[slot].value));
    ExtendsTransitive(ast, c.ast, m.ast);
    var r := m.ast.(outputs := m.ast.outputs[slot := Some(m.node)]);
    if WellFormed(ast) then
      TreeStable(ast, r, ast.outputs[slot].value);
      r
    else r
  }

  /** What slot `k` of the inputs denotes, or `default` when it is null. */
  function InputOr(ast: Ast, inputs: seq<Option<NodeRef>>, k: nat, default: Expr): Expr
    requires WellFormed(ast) && k < |inputs| && Refers(ast, inputs[k])
  {
    if inputs[k].Some? then Tree(ast, inputs[k].value) else default
  }

  /** The four steps of defaulting, named so that each slot's lemma can refer to them. */
  datatype Steps = Steps(start: Ast, a1: Ast, a2: Ast, a3: Ast, a4: Ast)

  function DefaultSteps(ast: Ast, inputs: seq<Option<NodeRef>>): Steps
    requires |inputs| >= 4
  {
    var start := ast.(outputs := inputs);
    var a1 := DefaultConstant(start, Density, One);
    var a2 := DefaultRandom(a1, Scale, Eleven);
    var a3 := DefaultRandom(a2, ColorIndex, Thirteen);
    var a4 := DefaultRandom(a3, ObjectIndex, Seventeen);
    Steps(start, a1, a2, a3, a4)
  }

  /** Defaulting touches only the four pin slots, and only the null ones. */
  lemma StepsKeepInputs(ast: Ast, inputs: seq<Option<NodeRef>>)
    requires |inputs| >= 4
    ensures
      var r := DefaultSteps(ast, inputs).a4;
      && |r.outputs| == |inputs|
      && r.outputs[4..] == inputs[4..]
      && (inputs[Density].Some? ==> r.outputs[Density] == inputs[Density])
      && (inputs[Scale].Some? ==> r.outputs[Scale] == inputs[Scale])
      && (inputs[ColorIndex].Some? ==> r.outputs[ColorIndex] == inputs[ColorIndex])
      && (inputs[ObjectIndex].Some? ==> r.outputs[ObjectIndex] == inputs[ObjectIndex])
  {
    var st := DefaultSteps(ast, inputs);
    assert st.a1.outputs[4..] == inputs[4..];
    assert st.a2.outputs[4..] == inputs[4..];
    assert st.a3.outputs[4..] == inputs[4..];
  }

  /** After defaulting every pin slot is connected, and the arena only grew. */
  lemma StepsFillPins(ast: Ast, inputs: seq<Option<NodeRef>>)
    requires |inputs| >= 4
    ensures
      var r := DefaultSteps(ast, inputs).a4;
      && |r.outputs| == |inputs|
      && r.outputs[Density].Some? && r.outputs[Scale].Some?
      && r.outputs[ColorIndex].Some? && r.outputs[ObjectIndex].Some?
      && Extends(ast, r)
      && (WellFormed(ast.(outputs := inputs)) ==> WellFormed(r))
  {
    var st := DefaultSteps(ast, inputs);
    ExtendsTransitive(st.start, st.a1, st.a2);
    ExtendsTransitive(st.start, st.a2, st.a3);
    ExtendsTransitive(st.start, st.a3, st.a4);
  }

  /** The outputs set to the inputs, and each null slot of the four pins given its default. */
  function FillDefaults(ast: Ast, inputs: seq<Option<NodeRef>>): (r: Ast)
    requires |inputs| >= 4
    ensures Extends(ast, r) && |r.outputs| == |inputs|
    ensures r.outputs[4..] == inputs[4..]
    ensures inputs[Density].Some? ==> r.outputs[Density] == inputs[Density]
    ensures inputs[Scale].Some? ==> r.outputs[Scale] == inputs[Scale]
    ensures inputs[ColorIndex].Some? ==> r.outputs[ColorIndex] == inputs[ColorIndex]
    ensures inputs[ObjectIndex].Some? ==> r.outputs[ObjectIndex] == inputs[ObjectIndex]
    ensures r.outputs[Density].Some? && r.outputs[Scale].Some?
    ensures r.outputs[ColorIndex].Some? && r.outputs[ObjectIndex].Some?
    ensures WellFormed(ast.(outputs := inputs)) ==> WellFormed(r)
  {
    StepsKeepInputs(ast, inputs);
    StepsFillPins(ast, inputs);
    DefaultSteps(ast, inputs).a4
  }

  /** Colour index scaled by 255, object index by the number of objects. */
  function ScaleIndices(a: Ast, objectCount: nat): (r: Ast)
    requires |a.outputs| >= 4 && a.outputs[ColorIndex].Some? && a.outputs[ObjectIndex].Some?
    ensures Extends(a, r) && |r.outputs| == |a.outputs|
    ensures r.outputs == a.outputs[ColorIndex := r.outputs[ColorIndex]][ObjectIndex := r.outputs[ObjectIndex]]
    ensures r.outputs[ColorIndex].Some? && r.outputs[ColorIndex].value < |r.nodes|
    ensures r.outputs[ObjectIndex].Some? && r.outputs[ObjectIndex].value < |r.nodes|
    ensures r.nodes[r.outputs[ColorIndex].value].Binary? && r.nodes[r.outputs[ColorIndex].value].op == Multiply
    ensures r.nodes[r.outputs[ColorIndex].value].right == a.outputs[ColorIndex].value
    ensures r.nodes[r.outputs[ObjectIndex].value].Binary? && r.nodes[r.outputs[ObjectIndex].value].op == Multiply
    ensures r.nodes[r.outputs[ObjectIndex].value].right == a.outputs[ObjectIndex].value
    ensures WellFormed(a) ==> WellFormed(r)
  {
    var a5 := ScaleOutput(a, ColorIndex, TwoFiftyFive);
    var a6 := ScaleOutput(a5, ObjectIndex, IntToFloat(objectCount));
    ExtendsTransitive(a, a5, a6);
    assert a6.nodes[..|a5.nodes|] == a5.nodes;
    assert a6.nodes[a5.outputs[ColorIndex].value] == a5.nodes[a5.outputs[ColorIndex].value];
    a6
  }

  /**
   `ezProceduralPlacementLayerOutput::GenerateExpressionASTNode`: the outputs
   become the inputs, null slots among the four pins get their defaults,
   colour index and object index are scaled into range, and the node itself
   yields no value. The graph always passes one input per pin.
   */
  function LayerOutputNode(layer: LayerOutput, inputs: seq<Option<NodeRef>>, ast: Ast): (r: (Ast, Option<NodeRef>))
    requires |inputs| >= 4
    ensures r.1.None?
    ensures Extends(ast, r.0)
    ensures |r.0.outputs| == |inputs|
    ensures r.0.outputs[4..] == inputs[4..]
    ensures r.0.outputs[Density].Some? && r.0.outputs[Scale].Some?
    ensures inputs[Density].Some? ==> r.0.outputs[Density] == inputs[Density]
    ensures inputs[Scale].Some? ==> r.0.outputs[Scale] == inputs[Scale]
    ensures
      var color := r.0.outputs[ColorIndex];
      && color.Some? && color.value < |r.0.nodes|
      && r.0.nodes[color.value].Binary? && r.0.nodes[color.value].op == Multiply
      && (inputs[ColorIndex].Some? ==> r.0.nodes[color.value].right == inputs[ColorIndex].value)
    ensures
      var objectSlot := r.0.outputs[ObjectIndex];
      && objectSlot.Some? && objectSlot.value < |r.0.nodes|
      && r.0.nodes[objectSlot.value].Binary? && r.0.nodes[objectSlot.value].op == Multiply
      && (inputs[ObjectIndex].Some? ==> r.0.nodes[objectSlot.value].right == inputs[ObjectIndex].value)
    ensures WellFormed(ast.(outputs := inputs)) ==> WellFormed(r.0)
  {
    var filled := FillDefaults(ast, inputs);
    var scaled := ScaleIndices(filled, |layer.objects|);
    ExtendsTransitive(ast, filled, scaled);
    (scaled, None)
  }

  /** A slot's expression survives appends that leave the slot alone. */
  lemma SlotStable(a: Ast, b: Ast, k: nat)
    requires WellFormed(a) && WellFormed(b) && Extends(a, b)
    requires k < |a.outputs| && k < |b.outputs| && a.outputs[k].Some? && b.outputs[k] == a.outputs[k]
    ensures b.outputs[k].value < |b.nodes|
    ensures Tree(b, b.outputs[k].value) == Tree(a, a.outputs[k].value)
  {
    TreeStable(a, b, a.outputs[k].value);
  }

  lemma DensityDefaulted(ast: Ast, inputs: seq<Option<NodeRef>>)
    requires |inputs| >= 4 && WellFormed(ast.(outputs := inputs))
    ensures
      var st := DefaultSteps(ast, inputs);
      Tree(st.a4, st.a4.outputs[Density].value) == InputOr(st.start, inputs, Density, EConst(One))
  {
    var st := DefaultSteps(ast, inputs);
    ExtendsTransitive(st.a1, st.a2, st.a3);
    ExtendsTransitive(st.a1, st.a3, st.a4);
    SlotStable(st.a1, st.a4, Density);
  }

  lemma ScaleDefaulted(ast: Ast, inputs: seq<Option<NodeRef>>)
    requires |inputs| >= 4 && WellFormed(ast.(outputs := inputs))
    ensures
      var st := DefaultSteps(ast, inputs);
      Tree(st.a4, st.a4.outputs[Scale].value) == InputOr(st.start, inputs, Scale, RandomTree(Eleven))
  {
    var st := DefaultSteps(ast, inputs);
    if inputs[Scale].Some? {
      SlotStable(st.start, st.a1, Scale);
    }
    ExtendsTransitive(st.a2, st.a3, st.a4);
    SlotStable(st.a2, st.a4, Scale);
  }

  lemma ColorIndexDefaulted(ast: Ast, inputs: seq<Option<NodeRef>>)
    requires |inputs| >= 4 && WellFormed(ast.(outputs := inputs))
    ensures
      var st := DefaultSteps(ast, inputs);
      Tree(st.a4, st.a4.outputs[ColorIndex].value) == InputOr(st.start, inputs, ColorIndex, RandomTree(Thirteen))
  {
    var st := DefaultSteps(ast, inputs);
    if inputs[ColorIndex].Some? {
      ExtendsTransitive(st.start, st.a1, st.a2);
      SlotStable(st.start, st.a2, ColorIndex);
    }
    SlotStable(st.a3, st.a4, ColorIndex);
  }

  lemma ObjectIndexDefaulted(ast: Ast, inputs: seq<Option<NodeRef>>)
    requires |inputs| >= 4 && WellFormed(ast.(outputs := inputs))
    ensures
      var st := DefaultSteps(ast, inputs);
      Tree(st.a4, st.a4.outputs[ObjectIndex].value) == InputOr(st.start, inputs, ObjectIndex, RandomTree(Seventeen))
  {
    var st := DefaultSteps(ast, inputs);
    if inputs[ObjectIndex].Some? {
      ExtendsTransitive(st.start, st.a1, st.a2);
      ExtendsTransitive(st.start, st.a2, st.a3);
      SlotStable(st.start, st.a3, ObjectIndex);
    }
  }

  /** After defaulting, each pin's slot denotes its input, or its default when the input is null. */
  lemma FillDefaultsTrees(ast: Ast, inputs: seq<Option<NodeRef>>)
    requires |inputs| >= 4 && WellFormed(ast.(outputs := inputs))
    ensures
      var start := ast.(outputs := inputs);
      var r := FillDefaults(ast, inputs);
      && WellFormed(r)
      && Tree(r, r.outputs[Density].value) == InputOr(start, inputs, Density, EConst(One))
      && Tree(r, r.outputs[Scale].value) == InputOr(start, inputs, Scale, RandomTree(Eleven))
      && Tree(r, r.outputs[ColorIndex].value) == InputOr(start, inputs, ColorIndex, RandomTree(Thirteen))
      && Tree(r, r.outputs[ObjectIndex].value) == InputOr(start, inputs, ObjectIndex, RandomTree(Seventeen))
  {
    DensityDefaulted(ast, inputs);
    ScaleDefaulted(ast, inputs);
    ColorIndexDefaulted(ast, inputs);
    ObjectIndexDefaulted(ast, inputs);
  }

  /**
   What each of the four outputs denotes after lowering: the input when
   there is one, else the default, with colour index scaled by 255 and
   object index by the number of objects.
   */
  lemma {:induction false} LayerOutputTrees(layer: LayerOutput, inputs: seq<Option<NodeRef>>, ast: Ast)
    requires |inputs| >= 4 && WellFormed(ast.(outputs := inputs))
    ensures
      var start := ast.(outputs := inputs);
      var out := LayerOutputNode(layer, inputs, ast).0;
      && WellFormed(out)
      && Tree(out, out.outputs[Density].value) == InputOr(start, inputs, Density, EConst(One))
      && Tree(out, out.outputs[Scale].value) == InputOr(start, inputs, Scale, RandomTree(Eleven))
      && Tree(out, out.outputs[ColorIndex].value)
         == EBinary(Multiply, EConst(TwoFiftyFive), InputOr(start, inputs, ColorIndex, RandomTree(Thirteen)))
      && Tree(out, out.outputs[ObjectIndex].value)
         == EBinary(Multiply, EConst(IntToFloat(|layer.objects|)), InputOr(start, inputs, ObjectIndex, RandomTree(Seventeen)))
  {
    var filled := FillDefaults(ast, inputs);
    FillDefaultsTrees(ast, inputs);
    var a5 := ScaleOutput(filled, ColorIndex, TwoFiftyFive);
    var a6 := ScaleOutput(a5, ObjectIndex, IntToFloat(|layer.objects|));
    assert LayerOutputNode(layer, inputs, ast).0 == a6;
    ExtendsTransitive(filled, a5, a6);
    SlotStable(filled, a6, Density);
    SlotStable(filled, a6, Scale);
    SlotStable(filled, a5, ObjectIndex);
    SlotStable(a5, a6, ColorIndex);
  }

  // ---------------------------------------------------------------------
  // Random, blend and height

  /** `ezProceduralPlacementRandom::GenerateExpressionASTNode`: the seed, converted to float. */
  function RandomNode(seed: int, ast: Ast): (r: Created)
    ensures Extends(ast, r.ast) && r.ast.outputs == ast.outputs && r.node < |r.ast.nodes|
    ensures WellFormed(ast) ==> WellFormed(r.ast) && Tree(r.ast, r.node) == RandomTree(IntToFloat(seed))
  {
    CreateRandom(ast, IntToFloat(seed))
  }

  /**
   `ezProceduralPlacementBlend::GenerateExpressionASTNode`: A * B, a null
   input standing for a constant of the node's value for it. The graph
   passes one input per pin.
   */
  function BlendNode(inputA: FloatBits, inputB: FloatBits, inputs: seq<Option<NodeRef>>, ast: Ast): (r: Created)
    requires |inputs| >= 2
    ensures Extends(ast, r.ast) && r.ast.outputs == ast.outputs && r.node < |r.ast.nodes|
    ensures r.ast.nodes[r.node].Binary? && r.ast.nodes[r.node].op == Multiply
    ensures inputs[0].Some? ==> r.ast.nodes[r.node].left == inputs[0].value
    ensures inputs[1].Some? ==> r.ast.nodes[r.node].right == inputs[1].value
  {
    var a := if inputs[0].Some? then Created(ast, inputs[0].value) else Create(ast, Constant(Lit(inputA)));
    var b := if inputs[1].Some? then Created(a.ast, inputs[1].value) else Create(a.ast, Constant(Lit(inputB)));
    var blend := Create(b.ast, Binary(Multiply, a.node, b.node));
    ExtendsTransitive(ast, a.ast, b.ast);
    ExtendsTransitive(ast, b.ast, blend.ast);
    blend
  }

  /** The blend denotes A * B, with a null input read as the node's constant for it. */
  lemma BlendTree(inputA: FloatBits, inputB: FloatBits, inputs: seq<Option<NodeRef>>, ast: Ast)
    requires |inputs| >= 2 && WellFormed(ast) && Refers(ast, inputs[0]) && Refers(ast, inputs[1])
    ensures
      var r := BlendNode(inputA, inputB, inputs, ast);
      && WellFormed(r.ast)
      && Tree(r.ast, r.node)
         == EBinary(Multiply, InputOr(ast, inputs, 0, EConst(Lit(inputA))), InputOr(ast, inputs, 1, EConst(Lit(inputB))))
  {
    var a := if inputs[0].Some? then Created(ast, inputs[0].value) else Create(ast, Constant(Lit(inputA)));
    var b := if inputs[1].Some? then Created(a.ast, inputs[1].value) else Create(a.ast, Constant(Lit(inputB)));
    var blend := Create(b.ast, Binary(Multiply, a.node, b.node));
    ExtendsTransitive(ast, a.ast, b.ast);
    ExtendsTransitive(ast, b.ast, blend.ast);
    ExtendsTransitive(a.ast, b.ast, blend.ast);
    assert WellFormed(blend.ast);
    TreeStable(a.ast, blend.ast, a.node);
    TreeStable(b.ast, blend.ast, b.node);
    if inputs[0].Some? {
      TreeStable(ast, blend.ast, inputs[0].value);
    }
    if inputs[1].Some? {
      TreeStable(ast, b.ast, inputs[1].value);
    }
  }

  /** The expression the height node builds, with the fade factor written out at both uses. */
  function HeightTree(minHeight: FloatBits, maxHeight: FloatBits, fade: FloatBits): Expr {
    var f := EConst(FadeFactor(fade));
    var scaled := EBinary(Divide, EBinary(Subtract, EInput(PositionZ), EConst(Lit(minHeight))),
                          EConst(HeightScale(minHeight, maxHeight, fade)));
    EBinary(Subtract, f, EUnary(Absolute, EBinary(Subtract, scaled, f)))
  }

  /**
   `ezProceduralPlacementHeight::GenerateExpressionASTNode`:
   F - |(z - min) / scale - F| over one fade-factor node F used twice.
   */
  function HeightNode(minHeight: FloatBits, maxHeight: FloatBits, fade: FloatBits, ast: Ast): (r: Created)
    ensures Extends(ast, r.ast) && r.ast.outputs == ast.outputs && r.node < |r.ast.nodes|
    ensures
      var top := r.ast.nodes[r.node];
      && top.Binary? && top.op == Subtract && top.right < |r.ast.nodes|
      && r.ast.nodes[top.right].Unary? && r.ast.nodes[top.right].operand < |r.ast.nodes|
      && r.ast.nodes[r.ast.nodes[top.right].operand].Binary?
      && r.ast.nodes[r.ast.nodes[top.right].operand].op == Subtract
      && r.ast.nodes[r.ast.nodes[top.right].operand].right == top.left
      && top.left < |r.ast.nodes| && r.ast.nodes[top.left] == Constant(FadeFactor(fade))
  {
    // The nodes in the order they are created, each referring to earlier ones by index.
    var b := |ast.nodes|;
    var height, offset, shifted, scale, scaled := b, b + 1, b + 2, b + 3, b + 4;
    var fadeFactor, centred, absolute, result := b + 5, b + 6, b + 7, b + 8;
    var added := [
      Input(PositionZ),
      Constant(Lit(minHeight)),
      Binary(Subtract, height, offset),
      Constant(HeightScale(minHeight, maxHeight, fade)),
      Binary(Divide, shifted, scale),
      Constant(FadeFactor(fade)),
      Binary(Subtract, scaled, fadeFactor),
      Unary(Absolute, centred),
      Binary(Subtract, fadeFactor, absolute)];
    var r := Created(ast.(nodes := ast.nodes + added), result);
    assert r.ast.nodes[..b] == ast.nodes;
    r
  }

  /** The height node denotes the height expression, and lowering it keeps the AST well formed. */
  lemma HeightNodeTree(minHeight: FloatBits, maxHeight: FloatBits, fade: FloatBits, ast: Ast)
    requires WellFormed(ast)
    ensures
      var r := HeightNode(minHeight, maxHeight, fade, ast);
      WellFormed(r.ast) && Tree(r.ast, r.node) == HeightTree(minHeight, maxHeight, fade)
  {
    var r := HeightNode(minHeight, maxHeight, fade, ast);
    var b := |ast.nodes|;
    var added := r.ast.nodes[b..];
    assert r.ast.nodes == ast.nodes + added;
    assert r.ast == ast.(nodes := ast.nodes + added);
    AppendWellFormed(ast, added);
    HeightShape(r.ast, b, b + 1, b + 2, b + 3, b + 4, b + 5, b + 6, b + 7, b + 8, minHeight, maxHeight, fade);
  }

  /** Appending nodes whose operands all precede them keeps an AST well formed. */
  lemma AppendWellFormed(ast: Ast, added: seq<Node>)
    requires WellFormed(ast)
    requires forall j :: 0 <= j < |added| ==> OperandsBelow(added[j], |ast.nodes| + j)
    ensures WellFormed(ast.(nodes := ast.nodes + added))
  {
    var r := ast.(nodes := ast.nodes + added);
    forall i | 0 <= i < |r.nodes|
      ensures OperandsBelow(r.nodes[i], i)
    {
      if i >= |ast.nodes| {
        assert r.nodes[i] == added[i - |ast.nodes|];
      }
    }
    forall k | 0 <= k < |r.outputs|
      ensures Refers(r, r.outputs[k])
    {
      assert Refers(ast, ast.outputs[k]);
    }
  }

  /** The nine nodes of a height expression denote it. */
  lemma HeightShape(
    ast: Ast, height: NodeRef, offset: NodeRef, shifted: NodeRef, scale: NodeRef, scaled: NodeRef,
    fadeFactor: NodeRef, centred: NodeRef, absolute: NodeRef, result: NodeRef,
    minHeight: FloatBits, maxHeight: FloatBits, fade: FloatBits)
    requires WellFormed(ast)
    requires height < offset < shifted < scale < scaled < fadeFactor < centred < absolute < result < |ast.nodes|
    requires ast.nodes[height] == Input(PositionZ) && ast.nodes[offset] == Constant(Lit(minHeight))
    requires ast.nodes[shifted] == Binary(Subtract, height, offset)
    requires ast.nodes[scale] == Constant(HeightScale(minHeight, maxHeight, fade))
    requires ast.nodes[scaled] == Binary(Divide, shifted, scale)
    requires ast.nodes[fadeFactor] == Constant(FadeFactor(fade))
    requires ast.nodes[centred] == Binary(Subtract, scaled, fadeFactor)
    requires ast.nodes[absolute] == Unary(Absolute, centred)
    requires ast.nodes[result] == Binary(Subtract, fadeFactor, absolute)
    ensures Tree(ast, result) == HeightTree(minHeight, maxHeight, fade)
  {
    var f := EConst(FadeFactor(fade));
    assert Tree(ast, fadeFactor) == f;
    var s := EBinary(Subtract, EInput(PositionZ), EConst(Lit(minHeight)));
    assert Tree(ast, shifted) == s;
    var d := EBinary(Divide, s, EConst(HeightScale(minHeight, maxHeight, fade)));
    assert Tree(ast, scaled) == d;
    assert Tree(ast, centred) == EBinary(Subtract, d, f);
    assert Tree(ast, absolute) == EUnary(Absolute, EBinary(Subtract, d, f));
  }

  // ---------------------------------------------------------------------
  // Saving a layer output

  /**
   `ezProceduralPlacementLayerOutput::Save`: name, object count and objects,
   footprint, offsets, alignment, scales, cull distance, collision layer,
   colour gradient and byte-code index. The active flag is not saved.
   */
  function SaveLayer(l: LayerOutput): (r: seq<Token>)
    ensures |r| >= 2 && r[0] == Str(l.name) && r[1] == U32(TruncU32(|l.objects|))
    ensures r[|r| - 1] == U32(l.byteCodeIndex)
  {
    [Str(l.name), U32(TruncU32(|l.objects|))] + WriteMany(l.objects, WriteObject)
    + [F32(l.footprint)] + WriteVec3(l.minOffset) + WriteVec3(l.maxOffset)
    + [F32(l.alignToNormal)] + WriteVec3(l.minScale) + WriteVec3(l.maxScale)
    + [F32(l.cullDistance), U8(l.collisionLayer), Str(l.colorGradient), U32(l.byteCodeIndex)]
  }

  function WriteObject(o: string): seq<Token> {
    [Str(o)]
  }

  /** The fields after the objects, in the order they are saved. */
  datatype Placement = Placement(
    footprint: FloatBits, minOffset: Vec3, maxOffset: Vec3, alignToNormal: FloatBits,
    minScale: Vec3, maxScale: Vec3, cullDistance: FloatBits, collisionLayer: u8,
    colorGradient: string, byteCodeIndex: u32)

  function PlacementOf(l: LayerOutput): Placement {
    Placement(l.footprint, l.minOffset, l.maxOffset, l.alignToNormal, l.minScale, l.maxScale,
              l.cullDistance, l.collisionLayer, l.colorGradient, l.byteCodeIndex)
  }

  function WritePlacement(p: Placement): seq<Token> {
    [F32(p.footprint)] + WriteVec3(p.minOffset) + WriteVec3(p.maxOffset)
    + [F32(p.alignToNormal)] + WriteVec3(p.minScale) + WriteVec3(p.maxScale)
    + [F32(p.cullDistance), U8(p.collisionLayer), Str(p.colorGradient), U32(p.byteCodeIndex)]
  }

  function ReadPlacement(s: seq<Token>): Read<Placement> {
    var footprint :- ReadF32(s);
    var minOffset :- ReadVec3(footprint.rest);
    var maxOffset :- ReadVec3(minOffset.rest);
    var align :- ReadF32(maxOffset.rest);
    var minScale :- ReadVec3(align.rest);
    var maxScale :- ReadVec3(minScale.rest);
    var cull :- ReadF32(maxScale.rest);
    var layer :- ReadU8(cull.rest);
    var gradient :- ReadStr(layer.rest);
    var byteCode :- ReadU32(gradient.rest);
    Success(Parsed(Placement(footprint.value, minOffset.value, maxOffset.value, align.value,
                             minScale.value, maxScale.value, cull.value, layer.value,
                             gradient.value, byteCode.value), byteCode.rest))
  }

  /**
   A reader of the saved layout, field for field in the saved order, into
   `into`; the active flag, not being saved, stays as it was.
   */
  function LoadLayer(into: LayerOutput, s: seq<Token>): Read<LayerOutput> {
    var name :- ReadStr(s);
    var count :- ReadU32(name.rest);
    var objects :- ReadMany(count.value, count.rest, ReadStr);
    var p :- ReadPlacement(objects.rest);
    var v := p.value;
    Success(Parsed(LayerOutput(into.active, name.value, objects.value, v.footprint, v.minOffset,
                               v.maxOffset, v.alignToNormal, v.minScale, v.maxScale, v.colorGradient,
                               v.cullDistance, v.collisionLayer, v.byteCodeIndex), p.rest))
  }

  lemma ReadWritePlacement(p: Placement, rest: seq<Token>)
    ensures ReadPlacement(WritePlacement(p) + rest) == Success(Parsed(p, rest))
  {
    var t3 := [U32(p.byteCodeIndex)] + rest;
    var t2 := [Str(p.colorGradient)] + t3;
    var t1 := [U8(p.collisionLayer)] + t2;
    var tail := [F32(p.cullDistance)] + t1;
    var s5 := WriteVec3(p.maxScale) + tail;
    var s4 := WriteVec3(p.minScale) + s5;
    var s3 := [F32(p.alignToNormal)] + s4;
    var s2 := WriteVec3(p.maxOffset) + s3;
    var s1 := WriteVec3(p.minOffset) + s2;
    var s0 := [F32(p.footprint)] + s1;
    assert WritePlacement(p) + rest == s0;
    assert ReadF32(s0) == Success(Parsed(p.footprint, s1));
    ReadWriteVec3(p.minOffset, s2);
    ReadWriteVec3(p.maxOffset, s3);
    assert ReadF32(s3) == Success(Parsed(p.alignToNormal, s4));
    ReadWriteVec3(p.minScale, s5);
    ReadWriteVec3(p.maxScale, tail);
    assert ReadF32(tail) == Success(Parsed(p.cullDistance, t1));
    assert ReadU8(t1) == Success(Parsed(p.collisionLayer, t2));
    assert ReadStr(t2) == Success(Parsed(p.colorGradient, t3));
    assert ReadU32(t3) == Success(Parsed(p.byteCodeIndex, rest));
  }

  /**
   Reading back a saved layer gives the layer, except for the active flag,
   and leaves what followed; the object count fits its 32 bits.
   */
  lemma SaveLoadRoundTrip(l: LayerOutput, into: LayerOutput, rest: seq<Token>)
    requires |l.objects| < 0x1_0000_0000
    ensures LoadLayer(into, SaveLayer(l) + rest) == Success(Parsed(l.(active := into.active), rest))
  {
    var afterObjects := WritePlacement(PlacementOf(l)) + rest;
    var afterCount := WriteMany(l.objects, WriteObject) + afterObjects;
    assert TruncU32(|l.objects|) == |l.objects|;
    var s := SaveLayer(l) + rest;
    assert s == [Str(l.name), U32(|l.objects|)] + afterCount;
    assert s[1..] == [U32(|l.objects|)] + afterCount;
    assert s[2..] == afterCount;
    ReadWriteMany(l.objects, afterObjects, WriteObject, ReadStr, (o: string) => true);
    ReadWritePlacement(PlacementOf(l), rest);
  }
}
