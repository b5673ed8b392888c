/**
 * The code generator page. It holds the prompt, the language choice
 * ('verilog' or 'vhdl'), the last generated code and a busy flag. Generating
 * is simulated: a click on a non-blank prompt raises the busy flag and
 * schedules a completion that fills in a fixed sample design named after
 * the prompt. The completion uses the prompt and language of the click,
 * whatever the user typed or chose in the meantime.
 */
module CodeGenerator {
  import opened Text
  import opened HdlText

  /**
   * `prompt.toLowerCase().replace(/\s+/g, '_')`: the name the page puts in
   * its samples and its download file name. Unlike the server's identifier
   * it keeps punctuation.
   */
  function Identifier(prompt: string): (id: string)
    ensures |id| <= |prompt|
    ensures forall i :: 0 <= i < |id| ==> !IsSpace(id[i]) && !IsUpper(id[i])
  {
    var lowered := LowerStr(prompt);
    UnderscoreAddsOnly(lowered);
    Underscore(lowered)
  }

  /** A prompt without whitespace is only lower-cased. */
  lemma IdentifierOfWord(prompt: string)
    requires NoSpace(prompt)
    ensures Identifier(prompt) == LowerStr(prompt)
  {
    UnderscoreNoSpace(LowerStr(prompt));
  }

  /** A whitespace run between two words becomes one `_` between their identifiers. */
  lemma IdentifierRun(a: string, w: string, b: string)
    requires a == [] || !IsSpace(a[|a| - 1])
    requires WhitespaceRun(w)
    requires b == [] || !IsSpace(b[0])
    ensures Identifier(a + w + b) == Identifier(a) + "_" + Identifier(b)
  {
    LowerRun(w);
    LowerStrAppend(a + w, b);
    LowerStrAppend(a, w);
    UnderscoreRun(LowerStr(a), w, LowerStr(b));
  }

  /** Any other character that is not a capital letter (the hyphen of "4-bit", say) is kept in place. */
  lemma IdentifierKeepsPunctuation(a: string, c: char, b: string)
    requires !IsSpace(c) && !IsUpper(c)
    ensures Identifier(a + [c] + b) == Identifier(a) + [c] + Identifier(b)
  {
    assert LowerStr(a + [c] + b) == LowerStr(a) + [c] + LowerStr(b);
    UnderscoreSplit(LowerStr(a), c, LowerStr(b));
  }

  /** A prompt that starts (ends) with whitespace gives an identifier that starts (ends) with `_`. */
  lemma IdentifierEnds(prompt: string)
    requires prompt != []
    ensures Identifier(prompt) != []
    ensures IsSpace(prompt[0]) ==> Identifier(prompt)[0] == '_'
    ensures IsSpace(prompt[|prompt| - 1]) ==> Identifier(prompt)[|Identifier(prompt)| - 1] == '_'
  {
    UnderscoreEnds(LowerStr(prompt));
  }

  /** The sample Verilog module, named after the prompt. */
  function SampleVerilog(prompt: string): string {
    VerilogModule(Identifier(prompt), SampleInterior)
  }

  /** The sample VHDL design, whose entity and architecture are named after the prompt. */
  function SampleVhdl(prompt: string): string {
    VhdlDesign(SampleLibraries, Identifier(prompt), SamplePorts, SampleBody)
  }

  /** The code a completion shows: the Verilog sample for 'verilog', the VHDL sample for anything else. */
  function Sample(prompt: string, language: string): string {
    if language == "verilog" then SampleVerilog(prompt) else SampleVhdl(prompt)
  }

  /** The Verilog sample declares the prompt's identifier and ends with "endmodule". */
  lemma SampleVerilogShape(prompt: string)
    ensures NameAfter(SampleVerilog(prompt), "module ") == Some(Identifier(prompt))
    ensures EndsWith(SampleVerilog(prompt), "endmodule")
  {
    VerilogModuleShape(Identifier(prompt), SampleInterior);
  }

  /** The VHDL sample's entity, end and architecture lines all carry the prompt's identifier. */
  lemma SampleVhdlShape(prompt: string)
    ensures var code, id := SampleVhdl(prompt), Identifier(prompt);
      && Contains(code, EntityLine(id))
      && Contains(code, EndLine(id))
      && Contains(code, ArchitectureLine(id))
      && NameAfter(code, SampleLibraries + "\nentity ") == Some(id)
  {
    var id := Identifier(prompt);
    VhdlLinesAgree(SampleLibraries, id, SamplePorts, SampleBody);
    VhdlEntityRoundTrip(SampleLibraries, id, SamplePorts, SampleBody);
  }

  /** A sample is never empty, so a completed generation always opens the output panel. */
  lemma SampleNonEmpty(prompt: string, language: string)
    ensures Sample(prompt, language) != []
  {
    if language == "verilog" {
      SampleVerilogShape(prompt);
    } else {
      SampleVhdlShape(prompt);
    }
  }

  function Extension(language: string): string {
    if language == "verilog" then "v" else "vhd"
  }

  /** The download file name: the identifier, a dot and the extension. */
  function FileName(prompt: string, language: string): string {
    Identifier(prompt) + "." + Extension(language)
  }

  /** The file name ends with ".v" exactly for 'verilog', and with ".vhd" exactly otherwise. */
  lemma FileNameExtensionIff(prompt: string, language: string)
    ensures EndsWith(FileName(prompt, language), ".v") <==> language == "verilog"
    ensures EndsWith(FileName(prompt, language), ".vhd") <==> language != "verilog"
  {
    var name := FileName(prompt, language);
    assert name[|name| - 1] == Extension(language)[|Extension(language)| - 1];
    if language == "verilog" {
      assert name[|name| - 1] == 'v';
    } else {
      assert name[|name| - 1] == 'd';
    }
  }

  /**
   * Downloading right after generating Verilog, with the prompt unchanged,
   * names the file after the module the code declares.
   */
  lemma VerilogFileNameMatches(prompt: string)
    ensures var name := FileName(prompt, "verilog");
      NameAfter(SampleVerilog(prompt), "module ") == Some(name[..|name| - 2])
  {
    var id := Identifier(prompt);
    var name := FileName(prompt, "verilog");
    assert name == id + ".v";
    assert name[..|name| - 2] == id;
    SampleVerilogShape(prompt);
  }

  /** The same for VHDL: the file is named after the entity. */
  lemma VhdlFileNameMatches(prompt: string)
    ensures var name := FileName(prompt, "vhdl");
      NameAfter(SampleVhdl(prompt), SampleLibraries + "\nentity ") == Some(name[..|name| - 4])
  {
    var id := Identifier(prompt);
    var name := FileName(prompt, "vhdl");
    assert name == id + ".vhd";
    assert name[..|name| - 4] == id;
    SampleVhdlShape(prompt);
  }

  /** `!prompt.trim()`: the prompt is empty or only whitespace. */
  predicate IsBlank(prompt: string) {
    Trim(prompt) == []
  }

  /** What the scheduled completion captured when the button was clicked. */
  datatype Job = Job(prompt: string, language: string)

  class CodeGeneratorState {
    var prompt: string
    var generatedCode: string
    var language: string
    var isGenerating: bool

    /** Only the two language buttons set the language. */
    predicate Valid()
      reads this
    {
      language == "verilog" || language == "vhdl"
    }

    constructor ()
      ensures Valid()
      ensures prompt == "" && generatedCode == "" && language == "verilog" && !isGenerating
    {
      prompt := "";
      generatedCode := "";
      language := "verilog";
      isGenerating := false;
    }

    /** The text input and the example prompt buttons. */
    method SetPrompt(text: string)
      requires Valid()
      modifies this
      ensures Valid()
      ensures prompt == text
      ensures generatedCode == old(generatedCode) && language == old(language) && isGenerating == old(isGenerating)
    {
      prompt := text;
    }

    /** The 'Verilog' and 'VHDL' buttons. */
    method SetLanguage(choice: string)
      requires choice == "verilog" || choice == "vhdl"
      modifies this
      ensures Valid()
      ensures language == choice
      ensures prompt == old(prompt) && generatedCode == old(generatedCode) && isGenerating == old(isGenerating)
    {
      language := choice;
    }

    /**
     * The generate button is disabled while busy or while the prompt is
     * blank: it is enabled exactly when idle with some non-whitespace
     * character in the prompt.
     */
    predicate GenerateEnabled(): (enabled: bool)
      reads this
      ensures enabled <==> !isGenerating && exists i :: 0 <= i < |prompt| && !IsSpace(prompt[i])
    {
      BlankIff(prompt);
      !isGenerating && !IsBlank(prompt)
    }

    predicate OutputShown()
      reads this
    {
      generatedCode != []
    }

    function ButtonLabel(): (caption: string)
      reads this
      ensures caption == "Generating..." <==> isGenerating
    {
      if isGenerating then "Generating..." else "Generate"
    }

    /**
     * `handleGenerate`: a blank prompt changes nothing; otherwise the busy
     * flag goes up and the returned job records the prompt and language of
     * this click. The Enter key reaches it even while busy.
     */
    method Generate() returns (job: Option<Job>)
      requires Valid()
      modifies this
      ensures Valid()
      ensures job == None <==> IsBlank(old(prompt))
      ensures job == None <==> forall i :: 0 <= i < |old(prompt)| ==> IsSpace(old(prompt)[i])
      ensures job == None ==> unchanged(this)
      ensures old(GenerateEnabled()) ==> job != None
      ensures job != None ==>
        && job.value == Job(old(prompt), old(language))
        && isGenerating
        && prompt == old(prompt) && language == old(language) && generatedCode == old(generatedCode)
    {
      BlankIff(prompt);
      if IsBlank(prompt) {
        return None;
      }
      isGenerating := true;
      job := Some(Job(prompt, language));
    }

    /**
     * The scheduled completion: the sample for the captured prompt and
     * language replaces the code and the busy flag goes down; the current
     * prompt and language are left as they are.
     */
    method Complete(job: Job)
      requires Valid()
      modifies this
      ensures Valid()
      ensures generatedCode == Sample(job.prompt, job.language)
      ensures !isGenerating && OutputShown()
      ensures prompt == old(prompt) && language == old(language)
    {
      SampleNonEmpty(job.prompt, job.language);
      generatedCode := Sample(job.prompt, job.language);
      isGenerating := false;
    }

    /**
     * `downloadCode`: the file is named after the prompt and language shown
     * now, which need not be those the code was generated from.
     */
    method Download() returns (fileName: string, contents: string)
      requires Valid()
      ensures contents == generatedCode
      ensures fileName == FileName(prompt, language)
      ensures EndsWith(fileName, ".v") <==> language == "verilog"
      ensures EndsWith(fileName, ".vhd") <==> language == "vhdl"
    {
      FileNameExtensionIff(prompt, language);
      fileName := FileName(prompt, language);
      contents := generatedCode;
    }
  }

  const SampleInterior: string :=
    "\n" +
    "    input clk,\n" +
    "    input reset,\n" +
    "    input [3:0] data_in,\n" +
    "    output reg [3:0] data_out\n" +
    ");\n" +
    "\n" +
    "always @(posedge clk or posedge reset) begin\n" +
    "    if (reset)\n" +
    "        data_out <= 4'b0000;\n" +
    "    else\n" +
    "        data_out <= data_in;\n" +
    "end\n" +
    "\n"

  const SampleLibraries: string :=
    "library IEEE;\n" +
    "use IEEE.STD_LOGIC_1164.ALL;\n"

  const SamplePorts: string :=
    "    Port ( clk : in STD_LOGIC;\n" +
    "           reset : in STD_LOGIC;\n" +
    "           data_in : in STD_LOGIC_VECTOR (3 downto 0);\n" +
    "           data_out : out STD_LOGIC_VECTOR (3 downto 0));"

  const SampleBody: string :=
    "begin\n" +
    "    process(clk, reset)\n" +
    "    begin\n" +
    "        if reset = '1' then\n" +
    "            data_out <= \"0000\";\n" +
    "        elsif rising_edge(clk) then\n" +
    "            data_out <= data_in;\n" +
    "        end if;\n" +
    "    end process;\n" +
    "end Behavioral;"
}
