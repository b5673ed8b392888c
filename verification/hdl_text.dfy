/**
 * The shape shared by every generated design: a Verilog module is
 * `module <name><interior>endmodule`, a VHDL design is a library header
 * followed by an `entity`, an `end` and an `architecture ... of` line that
 * all carry the same identifier. `NameAfter` reads a declared name back.
 */
module HdlText {
  import opened Text

  /** The name declared right after `lead`, read up to the first blank; `None` if `code` does not start with `lead`. */
  function NameAfter(code: string, lead: string): Option<string> {
    if lead <= code then Some(UntilBlank(code[|lead|..])) else None
  }

  predicate EndsWith(s: string, q: string) {
    |q| <= |s| && s[|s| - |q|..] == q
  }

  /** `module ${name} (<interior>endmodule`. */
  function VerilogModule(name: string, interior: string): string {
    "module " + name + " (" + interior + "endmodule"
  }

  /**
   * Every module built this way starts with "module " followed by `name` (as
   * long as `name` has no blank), ends with "endmodule" and is left as it is
   * by `trim`.
   */
  lemma VerilogModuleShape(name: string, interior: string)
    requires ' ' !in name
    ensures var code := VerilogModule(name, interior);
      && EndsWith(code, "endmodule")
      && NameAfter(code, "module ") == Some(name)
      && Trim(code) == code
  {
    var code := VerilogModule(name, interior);
    assert code[|"module "|..] == name + " " + ("(" + interior + "endmodule");
    UntilBlankSplice(name, "(" + interior + "endmodule");
    TrimUnchanged(code);
  }

  function EntityLine(id: string): string { "\nentity " + id + " is\n" }
  function EndLine(id: string): string { "\nend " + id + ";\n" }
  function ArchitectureLine(id: string): string { "\narchitecture Behavioral of " + id + " is\n" }

  /** A VHDL design whose entity, end and architecture lines splice in `id`. */
  function VhdlDesign(libraries: string, id: string, ports: string, body: string): string {
    libraries + EntityLine(id) + ports + EndLine(id) + ArchitectureLine(id) + body
  }

  /** The entity, end and architecture lines are all present, with the same identifier. */
  lemma VhdlLinesAgree(libraries: string, id: string, ports: string, body: string)
    ensures var code := VhdlDesign(libraries, id, ports, body);
      && Contains(code, EntityLine(id))
      && Contains(code, EndLine(id))
      && Contains(code, ArchitectureLine(id))
  {
    var e, n, a := EntityLine(id), EndLine(id), ArchitectureLine(id);
    var code := VhdlDesign(libraries, id, ports, body);
    assert code == libraries + e + (ports + n + a + body);
    ContainsInfix(libraries, e, ports + n + a + body);
    assert code == (libraries + e + ports) + n + (a + body);
    ContainsInfix(libraries + e + ports, n, a + body);
    ContainsInfix(libraries + e + ports + n, a, body);
  }

  /** The entity name reads back as `id` when `id` has no blank. */
  lemma VhdlEntityRoundTrip(libraries: string, id: string, ports: string, body: string)
    requires ' ' !in id
    ensures NameAfter(VhdlDesign(libraries, id, ports, body), libraries + "\nentity ") == Some(id)
  {
    var code := VhdlDesign(libraries, id, ports, body);
    var lead := libraries + "\nentity ";
    var rest := "is\n" + ports + EndLine(id) + ArchitectureLine(id) + body;
    assert code == lead + (id + " " + rest);
    UntilBlankSplice(id, rest);
  }

  /** `trim` changes nothing when the header does not start, and the body does not end, with whitespace. */
  lemma VhdlTrimUnchanged(libraries: string, id: string, ports: string, body: string)
    requires libraries != [] && !IsSpace(libraries[0])
    requires body != [] && !IsSpace(body[|body| - 1])
    ensures Trim(VhdlDesign(libraries, id, ports, body)) == VhdlDesign(libraries, id, ports, body)
  {
    var code := VhdlDesign(libraries, id, ports, body);
    assert code[0] == libraries[0];
    assert code[|code| - 1] == body[|body| - 1];
    TrimUnchanged(code);
  }
}
