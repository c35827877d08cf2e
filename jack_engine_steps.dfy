/// Unfolding steps of the compiler's productions, kept apart from the
/// larger property modules so that each is proved in a small context.
module JackEngineSteps {
  import opened JackTokens
  import opened JackSymbols
  import opened JackEngine

  /// A declaration whose return type and name are there goes on to its
  /// signature, with `this` declared for a method returning a class.
  lemma SubroutineDecSignature(ts: seq<Token>, g: Gen)
    requires Fits(ts, g) && StartsSubroutine(ts, g.pos)
    requires Kw(ts, g.pos + 1, Void) || IsType(ts, g.pos + 1)
    requires Ident(ts, g.pos + 1 + 1)
    ensures SubroutineDec(ts, g)
            == Signature(ts, At(ThisDeclared(ts, g), g.pos + 1 + 2), Name(ts, g.pos + 1 + 1), Kw(ts, g.pos, Constructor), Kw(ts, g.pos, Method))
  {
    var p := g.pos + 1;
    assert (Kw(ts, p, Void) || IsType(ts, p)) == true;
    assert Ident(ts, p + 1) == true;
  }
}
