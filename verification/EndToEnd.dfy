/** From the tokens of a function to what running its bytes does. */
module EndToEnd {
  import opened Basics
  import opened Values
  import opened Bytecode
  import opened Syntax
  import opened Grammar
  import opened Semantics
  import opened Codegen
  import opened Machine
  import opened CompilerCorrectness
  import opened Tidiness
  import opened Emission
  import Compiler

  /** Whatever a call of `f` ends in, so does the machine on `p`, and the other way round. */
  ghost predicate SameRuns(f: Function, p: Program) {
    forall w: World, callee, args: seq<Value>, globals, s: State | |args| == |f.params| && !s.Running? ::
      EndsAlike(w, f, p, callee, args, globals, s)
  }

  lemma {:induction false} CompiledRuns(f: Function)
    requires GenFunction(f).ok && NeatDecls(f.body, |f.params|, 0)
    ensures SameRuns(f, Compiled(f))
  {
    hide Compiled, GenFunction, NeatDecls, EndsAlike;
    AcceptedIff(f);
    forall w: World, callee, args: seq<Value>, globals, s: State | |args| == |f.params| && !s.Running?
      ensures EndsAlike(w, f, Compiled(f), callee, args, globals, s)
    {
      CompilerCorrect(w, f, callee, args, globals, s);
    }
  }

  /** The single-pass compiler accepts exactly the token streams that the grammar reads as a
      function without compile errors; and if every `break` and `continue` in that function finds
      the stack it needs, running the bytes it wrote is running the function. */
  method CompileFunction(tokens: Tokens) returns (p: Option<Program>)
    ensures p.Some? <==> ParseFunction(tokens).Some? && GenFunction(ParseFunction(tokens).value.0).ok
    ensures p.Some? ==> var f := ParseFunction(tokens).value.0;
            p.value == Compiled(f) && (NeatDecls(f.body, |f.params|, 0) ==> SameRuns(f, p.value))
  {
    hide ParseFunction, GenFunction, NeatDecls, SameRuns, Encode;
    var parser := new Compiler.Parser(tokens);
    parser.Function();
    if parser.hadError { return None; }
    ghost var f := ParseFunction(tokens).value.0;
    if NeatDecls(f.body, |f.params|, 0) { CompiledRuns(f); }
    p := Some(Program(parser.code, parser.constants));
  }
}
