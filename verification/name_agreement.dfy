/**
 * The page and the edge function derive their identifiers from the same
 * prompt in two different ways; this module relates the two.
 */
module NameAgreement {
  import opened Text
  import GenerateVerilog
  import CodeGenerator

  /** The edge function's identifier is the page's identifier with every character outside `[a-zA-Z0-9_]` deleted. */
  lemma ServerNameFromPageName(prompt: string)
    ensures GenerateVerilog.Sanitize(prompt) == KeepWordChars(CodeGenerator.Identifier(prompt))
  {
  }

  /** The two identifiers agree exactly when the page's identifier holds only letters, digits and `_`. */
  lemma NamesAgreeIff(prompt: string)
    ensures var id := CodeGenerator.Identifier(prompt);
      GenerateVerilog.Sanitize(prompt) == id <==> forall i :: 0 <= i < |id| ==> IsWordChar(id[i])
  {
    var id := CodeGenerator.Identifier(prompt);
    ServerNameFromPageName(prompt);
    if forall i :: 0 <= i < |id| ==> IsWordChar(id[i]) {
      KeepWordCharsUnchanged(id);
    }
  }

  /** A hyphen splits the two apart: the page keeps it, the edge function drops it. */
  lemma HyphenSeparatesNames(a: string, b: string)
    ensures CodeGenerator.Identifier(a + "-" + b) == CodeGenerator.Identifier(a) + "-" + CodeGenerator.Identifier(b)
    ensures GenerateVerilog.Sanitize(a + "-" + b) == GenerateVerilog.Sanitize(a) + GenerateVerilog.Sanitize(b)
    ensures GenerateVerilog.Sanitize(a + "-" + b) != CodeGenerator.Identifier(a + "-" + b)
  {
    CodeGenerator.IdentifierKeepsPunctuation(a, '-', b);
    GenerateVerilog.SanitizeDropsPunctuation(a, '-', b);
    NamesAgreeIff(a + "-" + b);
    var id := CodeGenerator.Identifier(a + "-" + b);
    assert id[|CodeGenerator.Identifier(a)|] == '-';
  }
}
