/**
 * The `generate-verilog` edge function: a guard on the request's prompt, a
 * keyword classifier over the lower-cased prompt, seven fixed Verilog
 * modules, a generic Verilog module and a generic VHDL design, the last two
 * named after an identifier derived from the prompt.
 */
module GenerateVerilog {
  import opened Text
  import opened HdlText

  /** Which Verilog template a request gets. */
  datatype ModuleKind =
    | JkFlipFlop | Counter4Bit | Adder8Bit | Mux4to1 | DFlipFlop | Alu4Bit | ShiftRegister4Bit
    | Generic

  /** One branch of the classifier: any one of its keywords selects its kind. */
  datatype Rule = Rule(keywords: seq<string>, kind: ModuleKind)

  /** The branches, in the order the handler tests them. */
  const Rules: seq<Rule> := [
    Rule(["jk flip", "jk-flip"], JkFlipFlop),
    Rule(["4-bit counter", "counter"], Counter4Bit),
    Rule(["8-bit adder", "adder"], Adder8Bit),
    Rule(["multiplexer", "mux"], Mux4to1),
    Rule(["d flip", "d-flip"], DFlipFlop),
    Rule(["alu"], Alu4Bit),
    Rule(["shift register"], ShiftRegister4Bit)
  ]

  predicate Matches(lowered: string, rule: Rule) {
    exists j :: 0 <= j < |rule.keywords| && Contains(lowered, rule.keywords[j])
  }

  /** The if/else-if chain of `includes` tests, applied to the lower-cased prompt. */
  function Classify(lowered: string): ModuleKind {
    if Contains(lowered, "jk flip") || Contains(lowered, "jk-flip") then JkFlipFlop
    else if Contains(lowered, "4-bit counter") || Contains(lowered, "counter") then Counter4Bit
    else if Contains(lowered, "8-bit adder") || Contains(lowered, "adder") then Adder8Bit
    else if Contains(lowered, "multiplexer") || Contains(lowered, "mux") then Mux4to1
    else if Contains(lowered, "d flip") || Contains(lowered, "d-flip") then DFlipFlop
    else if Contains(lowered, "alu") then Alu4Bit
    else if Contains(lowered, "shift register") then ShiftRegister4Bit
    else Generic
  }

  lemma MatchesPair(lowered: string, rule: Rule, a: string, b: string)
    requires rule.keywords == [a, b]
    ensures Matches(lowered, rule) <==> Contains(lowered, a) || Contains(lowered, b)
  {
    if Contains(lowered, a) {
      assert Contains(lowered, rule.keywords[0]);
    }
    if Contains(lowered, b) {
      assert Contains(lowered, rule.keywords[1]);
    }
  }

  lemma MatchesSingle(lowered: string, rule: Rule, a: string)
    requires rule.keywords == [a]
    ensures Matches(lowered, rule) <==> Contains(lowered, a)
  {
    if Contains(lowered, a) {
      assert Contains(lowered, rule.keywords[0]);
    }
  }

  /** The rule table read back as the `includes` tests of each branch. */
  lemma RulesSpelledOut(lowered: string)
    ensures |Rules| == 7
    ensures Matches(lowered, Rules[0]) <==> Contains(lowered, "jk flip") || Contains(lowered, "jk-flip")
    ensures Matches(lowered, Rules[1]) <==> Contains(lowered, "4-bit counter") || Contains(lowered, "counter")
    ensures Matches(lowered, Rules[2]) <==> Contains(lowered, "8-bit adder") || Contains(lowered, "adder")
    ensures Matches(lowered, Rules[3]) <==> Contains(lowered, "multiplexer") || Contains(lowered, "mux")
    ensures Matches(lowered, Rules[4]) <==> Contains(lowered, "d flip") || Contains(lowered, "d-flip")
    ensures Matches(lowered, Rules[5]) <==> Contains(lowered, "alu")
    ensures Matches(lowered, Rules[6]) <==> Contains(lowered, "shift register")
  {
    MatchesPair(lowered, Rules[0], "jk flip", "jk-flip");
    MatchesPair(lowered, Rules[1], "4-bit counter", "counter");
    MatchesPair(lowered, Rules[2], "8-bit adder", "adder");
    MatchesPair(lowered, Rules[3], "multiplexer", "mux");
    MatchesPair(lowered, Rules[4], "d flip", "d-flip");
    MatchesSingle(lowered, Rules[5], "alu");
    MatchesSingle(lowered, Rules[6], "shift register");
  }

  /** The first rule that matches wins: rule `m` decides when it matches and no earlier rule does. */
  lemma ClassifyFirstMatch(lowered: string, m: nat)
    requires m < |Rules| && Matches(lowered, Rules[m])
    requires forall j :: 0 <= j < m ==> !Matches(lowered, Rules[j])
    ensures Classify(lowered) == Rules[m].kind
  {
    RulesSpelledOut(lowered);
    assert m > 0 ==> !Matches(lowered, Rules[0]);
    assert m > 1 ==> !Matches(lowered, Rules[1]);
    assert m > 2 ==> !Matches(lowered, Rules[2]);
    assert m > 3 ==> !Matches(lowered, Rules[3]);
    assert m > 4 ==> !Matches(lowered, Rules[4]);
    assert m > 5 ==> !Matches(lowered, Rules[5]);
  }

  /** The generic template is chosen exactly when no rule matches. */
  lemma ClassifyGenericIff(lowered: string)
    ensures Classify(lowered) == Generic <==> forall j :: 0 <= j < |Rules| ==> !Matches(lowered, Rules[j])
  {
    RulesSpelledOut(lowered);
    if Classify(lowered) == Generic {
      forall j | 0 <= j < |Rules| ensures !Matches(lowered, Rules[j]) {
        assert j in {0, 1, 2, 3, 4, 5, 6};
      }
    }
  }

  /** A prompt that mentions both a counter and an adder (and no JK flip-flop) gets the counter. */
  lemma CounterBeforeAdder(lowered: string)
    requires Contains(lowered, "counter") && Contains(lowered, "adder")
    requires !Contains(lowered, "jk flip") && !Contains(lowered, "jk-flip")
    ensures Classify(lowered) == Counter4Bit
  {
  }

  /** Every window that spells "value" holds "alu" one position in. */
  lemma ValueContainsAlu(lowered: string)
    requires Contains(lowered, "value")
    ensures Contains(lowered, "alu")
  {
    ContainsIff(lowered, "value");
    var i :| OccursAt(lowered, "value", i);
    var w := lowered[i..i + 5];
    assert w == "value";
    assert lowered[i + 1..i + 4] == [w[1], w[2], w[3]] == "alu";
    assert OccursAt(lowered, "alu", i + 1);
    ContainsIff(lowered, "alu");
  }

  /**
   * A prompt that mentions "value" (a "shift register value", say) is an ALU
   * request unless an earlier rule matched: the shift-register rule is never
   * reached.
   */
  lemma ValueShadowsShiftRegister(lowered: string)
    requires Contains(lowered, "value")
    requires forall j :: 0 <= j < 5 ==> !Matches(lowered, Rules[j])
    ensures Classify(lowered) == Alu4Bit
  {
    ValueContainsAlu(lowered);
    RulesSpelledOut(lowered);
    assert !Matches(lowered, Rules[0]) && !Matches(lowered, Rules[1]) && !Matches(lowered, Rules[2]);
    assert !Matches(lowered, Rules[3]) && !Matches(lowered, Rules[4]);
  }

  /**
   * The identifier spliced into the generic templates: the prompt lower-cased,
   * each whitespace run replaced by `_`, then every character outside
   * `[a-zA-Z0-9_]` deleted. Only lower-case letters, digits and `_` remain.
   */
  function Sanitize(prompt: string): (id: string)
    ensures forall i :: 0 <= i < |id| ==> IsLowerOrDigit(id[i]) || id[i] == '_'
  {
    var u := Underscore(LowerStr(prompt));
    UnderscoreAddsOnly(LowerStr(prompt));
    var id := KeepWordChars(u);
    KeepWordCharsCounts(u);
    assert forall i :: 0 <= i < |id| ==> !IsUpper(id[i]) by {
      forall i | 0 <= i < |id| ensures !IsUpper(id[i]) {
        assert id[i] in multiset(id);
      }
    }
    id
  }

  /** A text is its own identifier exactly when it is made of lower-case letters, digits and `_`. */
  lemma SanitizeFixedPointIff(s: string)
    ensures Sanitize(s) == s <==> forall i :: 0 <= i < |s| ==> IsLowerOrDigit(s[i]) || s[i] == '_'
  {
    if forall i :: 0 <= i < |s| ==> IsLowerOrDigit(s[i]) || s[i] == '_' {
      assert LowerStr(s) == s;
      UnderscoreNoSpace(s);
      KeepWordCharsUnchanged(s);
    }
  }

  /** Deriving the identifier twice gives the same identifier. */
  lemma SanitizeIdempotent(prompt: string)
    ensures Sanitize(Sanitize(prompt)) == Sanitize(prompt)
  {
    SanitizeFixedPointIff(Sanitize(prompt));
  }

  /**
   * A character that is neither a word character nor whitespace (the hyphen
   * of "4-bit", say) is deleted without leaving a separator: the text on its
   * two sides is sanitised independently and the results are joined.
   */
  lemma SanitizeDropsPunctuation(a: string, c: char, b: string)
    requires !IsWordChar(c) && !IsSpace(c)
    ensures Sanitize(a + [c] + b) == Sanitize(a) + Sanitize(b)
  {
    var la, lb := LowerStr(a), LowerStr(b);
    assert LowerStr(a + [c] + b) == la + [c] + lb;
    UnderscoreSplit(la, c, lb);
    var ua, ub := Underscore(la), Underscore(lb);
    KeepWordCharsAppend(ua + [c], ub);
    KeepWordCharsAppend(ua, [c]);
    assert KeepWordChars([c]) == [];
  }

  /** A whitespace run between two words becomes one `_` between their identifiers. */
  lemma SanitizeRun(a: string, w: string, b: string)
    requires a == [] || !IsSpace(a[|a| - 1])
    requires WhitespaceRun(w)
    requires b == [] || !IsSpace(b[0])
    ensures Sanitize(a + w + b) == Sanitize(a) + "_" + Sanitize(b)
  {
    var la, lb := LowerStr(a), LowerStr(b);
    LowerRun(w);
    LowerStrAppend(a + w, b);
    LowerStrAppend(a, w);
    UnderscoreRun(la, w, lb);
    var ua, ub := Underscore(la), Underscore(lb);
    KeepWordCharsAppend(ua + "_", ub);
    KeepWordCharsAppend(ua, "_");
    KeepWordCharsUnchanged("_");
  }

  /** The fixed module name of each keyword template. */
  function ModuleName(kind: ModuleKind): (name: string)
    requires kind != Generic
    ensures name != [] && ' ' !in name
  {
    match kind
    case JkFlipFlop => "jk_flip_flop"
    case Counter4Bit => "counter_4bit"
    case Adder8Bit => "adder_8bit"
    case Mux4to1 => "mux_4to1"
    case DFlipFlop => "d_flip_flop"
    case Alu4Bit => "alu_4bit"
    case ShiftRegister4Bit => "shift_register_4bit"
  }

  /** What each keyword template holds between `module <name> (` and its final `endmodule`. */
  function Interior(kind: ModuleKind): string
    requires kind != Generic
  {
    match kind
    case JkFlipFlop => JkFlipFlopInterior
    case Counter4Bit => Counter4BitInterior
    case Adder8Bit => Adder8BitInterior
    case Mux4to1 => Mux4to1Interior
    case DFlipFlop => DFlipFlopInterior
    case Alu4Bit => Alu4BitInterior
    case ShiftRegister4Bit => ShiftRegister4BitInterior
  }

  /** One of the seven constant generators; none of them looks at the prompt. */
  function KeywordModule(kind: ModuleKind): string
    requires kind != Generic
  {
    VerilogModule(ModuleName(kind), Interior(kind))
  }

  /** `generateGenericModule(prompt)`. */
  function GenericModule(prompt: string): string {
    VerilogModule(Sanitize(prompt), GenericInterior)
  }

  /** `generateVHDLCode(prompt)`. */
  function VhdlCode(prompt: string): string {
    VhdlDesign(VhdlLibraries, Sanitize(prompt), VhdlPorts, VhdlBody)
  }

  /** The code chosen for a non-empty prompt, before it is trimmed. */
  function Generate(prompt: string, language: Option<string>): string {
    if language == Some("verilog") then
      var kind := Classify(LowerStr(prompt));
      if kind == Generic then GenericModule(prompt) else KeywordModule(kind)
    else
      VhdlCode(prompt)
  }

  /** The request body: `prompt` and `language` may each be missing. */
  datatype Request = Request(prompt: Option<string>, language: Option<string>)

  datatype Response =
    | BadRequest(error: string)
    | Generated(generatedCode: string, model: string)

  function Status(response: Response): int {
    if response.BadRequest? then 400 else 200
  }

  /** The name the Verilog code declares after `module `. */
  function DeclaredModule(prompt: string): string {
    var kind := Classify(LowerStr(prompt));
    if kind == Generic then Sanitize(prompt) else ModuleName(kind)
  }

  /**
   * Verilog output ends with "endmodule"; the name after "module " is the
   * keyword template's fixed name, or the prompt's identifier when no
   * keyword matched; and `trim` leaves it unchanged.
   */
  lemma VerilogShape(prompt: string)
    ensures var code := Generate(prompt, Some("verilog"));
      && EndsWith(code, "endmodule")
      && NameAfter(code, "module ") == Some(DeclaredModule(prompt))
      && Trim(code) == code
  {
    var kind := Classify(LowerStr(prompt));
    if kind == Generic {
      GenericModuleShape(prompt);
    } else {
      KeywordModuleShape(kind);
    }
  }

  lemma GenericModuleShape(prompt: string)
    ensures var code := GenericModule(prompt);
      && EndsWith(code, "endmodule")
      && NameAfter(code, "module ") == Some(Sanitize(prompt))
      && Trim(code) == code
  {
    VerilogModuleShape(Sanitize(prompt), GenericInterior);
  }

  lemma KeywordModuleShape(kind: ModuleKind)
    requires kind != Generic
    ensures var code := KeywordModule(kind);
      && EndsWith(code, "endmodule")
      && NameAfter(code, "module ") == Some(ModuleName(kind))
      && Trim(code) == code
  {
    VerilogModuleShape(ModuleName(kind), Interior(kind));
  }

  /** Any language other than "verilog" gets the VHDL design, whatever keywords the prompt holds. */
  lemma VhdlChosen(prompt: string, language: Option<string>)
    requires language != Some("verilog")
    ensures Generate(prompt, language) == VhdlCode(prompt)
  {
  }

  /**
   * The VHDL design's entity, end and architecture lines carry the prompt's
   * identifier, the entity name reads back as that identifier, and `trim`
   * leaves the design unchanged.
   */
  lemma VhdlShape(prompt: string)
    ensures var code, id := VhdlCode(prompt), Sanitize(prompt);
      && Contains(code, EntityLine(id))
      && Contains(code, EndLine(id))
      && Contains(code, ArchitectureLine(id))
      && NameAfter(code, VhdlLibraries + "\nentity ") == Some(id)
      && Trim(code) == code
  {
    var id := Sanitize(prompt);
    VhdlLinesAgree(VhdlLibraries, id, VhdlPorts, VhdlBody);
    VhdlEntityRoundTrip(VhdlLibraries, id, VhdlPorts, VhdlBody);
    VhdlTrimUnchanged(VhdlLibraries, id, VhdlPorts, VhdlBody);
  }

  /** `trim` never changes generated code. */
  lemma GenerateTrimmed(prompt: string, language: Option<string>)
    ensures Trim(Generate(prompt, language)) == Generate(prompt, language)
  {
    if language == Some("verilog") {
      VerilogShape(prompt);
    } else {
      VhdlChosen(prompt, language);
      VhdlShape(prompt);
    }
  }

  /**
   * The handler: a missing or empty prompt is answered with status 400 and
   * "Prompt is required"; any other prompt, whitespace-only included, with
   * status 200 and the generated code.
   */
  function Handle(request: Request): (response: Response)
    ensures response.BadRequest? <==> request.prompt == None || request.prompt == Some("")
    ensures response.BadRequest? ==> response.error == "Prompt is required" && Status(response) == 400
    ensures response.Generated? ==>
      && Status(response) == 200
      && response.model == "Local Verilog Generator"
      && response.generatedCode == Generate(request.prompt.value, request.language)
  {
    if request.prompt == None || request.prompt == Some("") then
      BadRequest("Prompt is required")
    else
      GenerateTrimmed(request.prompt.value, request.language);
      Generated(Trim(Generate(request.prompt.value, request.language)), "Local Verilog Generator")
  }

  /**
   * Keyword matching and the identifier both see only the lower-cased
   * prompt: prompts that differ only in letter case get the same code.
   */
  lemma CaseInsensitive(p: string, q: string, language: Option<string>)
    requires LowerStr(p) == LowerStr(q)
    ensures Generate(p, language) == Generate(q, language)
  {
    assert Sanitize(p) == Sanitize(q);
  }

  /** A keyword template does not depend on the prompt: prompts that select the same one get the same code. */
  lemma KeywordIgnoresPrompt(p: string, q: string)
    requires Classify(LowerStr(p)) == Classify(LowerStr(q)) != Generic
    ensures Generate(p, Some("verilog")) == Generate(q, Some("verilog")) == KeywordModule(Classify(LowerStr(p)))
  {
  }

  /** "JK Flip" and "jk flip" both select the JK flip-flop template. */
  lemma JkFlipAnyCase()
    ensures Classify(LowerStr("JK Flip")) == Classify(LowerStr("jk flip")) == JkFlipFlop
  {
    var q := "jk flip";
    assert LowerStr("JK Flip") == q;
    assert LowerStr(q) == q;
    ContainsInfix([], q, []);
    assert [] + q + [] == q;
  }

  /** A whitespace-only prompt is not rejected: it yields the generic module named `_`. */
  lemma BlankPromptAccepted(p: string, language: Option<string>)
    requires p != [] && forall i :: 0 <= i < |p| ==> IsSpace(p[i])
    requires language == Some("verilog")
    ensures Handle(Request(Some(p), language)) == Generated(VerilogModule("_", GenericInterior), "Local Verilog Generator")
  {
    var l := LowerStr(p);
    assert l == p;
    NoKeywordInBlank(l);
    assert Classify(l) == Generic;
    assert TrimStart(l[1..]) == [];
    assert Underscore(l) == "_";
    KeepWordCharsUnchanged("_");
    assert Sanitize(p) == "_";
  }

  /** No keyword occurs in a text made only of whitespace. */
  lemma NoKeywordInBlank(l: string)
    requires forall i :: 0 <= i < |l| ==> IsSpace(l[i])
    ensures Classify(l) == Generic
  {
    assert forall c :: c in l ==> IsSpace(c);
    NotContainsMissingChar(l, "jk flip", 0);
    NotContainsMissingChar(l, "jk-flip", 0);
    NotContainsMissingChar(l, "4-bit counter", 0);
    NotContainsMissingChar(l, "counter", 0);
    NotContainsMissingChar(l, "8-bit adder", 0);
    NotContainsMissingChar(l, "adder", 0);
    NotContainsMissingChar(l, "multiplexer", 0);
    NotContainsMissingChar(l, "mux", 0);
    NotContainsMissingChar(l, "d flip", 0);
    NotContainsMissingChar(l, "d-flip", 0);
    NotContainsMissingChar(l, "alu", 0);
    NotContainsMissingChar(l, "shift register", 0);
  }

  const JkFlipFlopInterior: string :=
    "\n" +
    "    input wire clk,\n" +
    "    input wire reset,\n" +
    "    input wire preset,\n" +
    "    input wire j,\n" +
    "    input wire k,\n" +
    "    output reg q,\n" +
    "    output wire q_bar\n" +
    ");\n" +
    "\n" +
    "    assign q_bar = ~q;\n" +
    "\n" +
    "    always @(posedge clk or posedge reset or posedge preset) begin\n" +
    "        if (reset)\n" +
    "            q <= 1'b0;\n" +
    "        else if (preset)\n" +
    "            q <= 1'b1;\n" +
    "        else begin\n" +
    "            case ({j, k})\n" +
    "                2'b00: q <= q;        // Hold\n" +
    "                2'b01: q <= 1'b0;     // Reset\n" +
    "                2'b10: q <= 1'b1;     // Set\n" +
    "                2'b11: q <= ~q;       // Toggle\n" +
    "            endcase\n" +
    "        end\n" +
    "    end\n" +
    "\n"

  const Counter4BitInterior: string :=
    "\n" +
    "    input wire clk,\n" +
    "    input wire reset,\n" +
    "    input wire enable,\n" +
    "    output reg [3:0] count,\n" +
    "    output wire overflow\n" +
    ");\n" +
    "\n" +
    "    assign overflow = (count == 4'b1111) && enable;\n" +
    "\n" +
    "    always @(posedge clk or posedge reset) begin\n" +
    "        if (reset)\n" +
    "            count <= 4'b0000;\n" +
    "        else if (enable)\n" +
    "            count <= count + 1;\n" +
    "    end\n" +
    "\n"

  const Adder8BitInterior: string :=
    "\n" +
    "    input wire [7:0] a,\n" +
    "    input wire [7:0] b,\n" +
    "    input wire cin,\n" +
    "    output wire [7:0] sum,\n" +
    "    output wire cout\n" +
    ");\n" +
    "\n" +
    "    wire [7:0] carry;\n" +
    "\n" +
    "    full_adder fa0 (.a(a[0]), .b(b[0]), .cin(cin), .sum(sum[0]), .cout(carry[0]));\n" +
    "    full_adder fa1 (.a(a[1]), .b(b[1]), .cin(carry[0]), .sum(sum[1]), .cout(carry[1]));\n" +
    "    full_adder fa2 (.a(a[2]), .b(b[2]), .cin(carry[1]), .sum(sum[2]), .cout(carry[2]));\n" +
    "    full_adder fa3 (.a(a[3]), .b(b[3]), .cin(carry[2]), .sum(sum[3]), .cout(carry[3]));\n" +
    "    full_adder fa4 (.a(a[4]), .b(b[4]), .cin(carry[3]), .sum(sum[4]), .cout(carry[4]));\n" +
    "    full_adder fa5 (.a(a[5]), .b(b[5]), .cin(carry[4]), .sum(sum[5]), .cout(carry[5]));\n" +
    "    full_adder fa6 (.a(a[6]), .b(b[6]), .cin(carry[5]), .sum(sum[6]), .cout(carry[6]));\n" +
    "    full_adder fa7 (.a(a[7]), .b(b[7]), .cin(carry[6]), .sum(sum[7]), .cout(carry[7]));\n" +
    "\n" +
    "    assign cout = carry[7];\n" +
    "\n" +
    "endmodule\n" +
    "\n" +
    "module full_adder (\n" +
    "    input wire a,\n" +
    "    input wire b,\n" +
    "    input wire cin,\n" +
    "    output wire sum,\n" +
    "    output wire cout\n" +
    ");\n" +
    "\n" +
    "    assign sum = a ^ b ^ cin;\n" +
    "    assign cout = (a & b) | (cin & (a ^ b));\n" +
    "\n"

  const Mux4to1Interior: string :=
    "\n" +
    "    input wire [1:0] select,\n" +
    "    input wire [3:0] data_in,\n" +
    "    output reg data_out\n" +
    ");\n" +
    "\n" +
    "    always @(*) begin\n" +
    "        case (select)\n" +
    "            2'b00: data_out = data_in[0];\n" +
    "            2'b01: data_out = data_in[1];\n" +
    "            2'b10: data_out = data_in[2];\n" +
    "            2'b11: data_out = data_in[3];\n" +
    "            default: data_out = 1'b0;\n" +
    "        endcase\n" +
    "    end\n" +
    "\n"

  const DFlipFlopInterior: string :=
    "\n" +
    "    input wire clk,\n" +
    "    input wire reset,\n" +
    "    input wire enable,\n" +
    "    input wire d,\n" +
    "    output reg q,\n" +
    "    output wire q_bar\n" +
    ");\n" +
    "\n" +
    "    assign q_bar = ~q;\n" +
    "\n" +
    "    always @(posedge clk or posedge reset) begin\n" +
    "        if (reset)\n" +
    "            q <= 1'b0;\n" +
    "        else if (enable)\n" +
    "            q <= d;\n" +
    "    end\n" +
    "\n"

  const Alu4BitInterior: string :=
    "\n" +
    "    input wire [3:0] a,\n" +
    "    input wire [3:0] b,\n" +
    "    input wire [2:0] operation,\n" +
    "    output reg [3:0] result,\n" +
    "    output reg zero,\n" +
    "    output reg carry\n" +
    ");\n" +
    "\n" +
    "    always @(*) begin\n" +
    "        carry = 1'b0;\n" +
    "        case (operation)\n" +
    "            3'b000: result = a + b;                    // ADD\n" +
    "            3'b001: {carry, result} = a + b;           // ADD with carry\n" +
    "            3'b010: result = a - b;                    // SUB\n" +
    "            3'b011: result = a & b;                    // AND\n" +
    "            3'b100: result = a | b;                    // OR\n" +
    "            3'b101: result = a ^ b;                    // XOR\n" +
    "            3'b110: result = ~a;                       // NOT\n" +
    "            3'b111: result = a << 1;                   // Left shift\n" +
    "            default: result = 4'b0000;\n" +
    "        endcase\n" +
    "        \n" +
    "        zero = (result == 4'b0000);\n" +
    "    end\n" +
    "\n"

  const ShiftRegister4BitInterior: string :=
    "\n" +
    "    input wire clk,\n" +
    "    input wire reset,\n" +
    "    input wire shift_enable,\n" +
    "    input wire serial_in,\n" +
    "    input wire direction,  // 0 for left, 1 for right\n" +
    "    output reg [3:0] parallel_out,\n" +
    "    output wire serial_out\n" +
    ");\n" +
    "\n" +
    "    assign serial_out = direction ? parallel_out[0] : parallel_out[3];\n" +
    "\n" +
    "    always @(posedge clk or posedge reset) begin\n" +
    "        if (reset)\n" +
    "            parallel_out <= 4'b0000;\n" +
    "        else if (shift_enable) begin\n" +
    "            if (direction) // Right shift\n" +
    "                parallel_out <= {serial_in, parallel_out[3:1]};\n" +
    "            else // Left shift\n" +
    "                parallel_out <= {parallel_out[2:0], serial_in};\n" +
    "        end\n" +
    "    end\n" +
    "\n"

  const GenericInterior: string :=
    "\n" +
    "    input wire clk,\n" +
    "    input wire reset,\n" +
    "    // Add your input ports here\n" +
    "    output reg output_signal\n" +
    "    // Add your output ports here\n" +
    ");\n" +
    "\n" +
    "    // Add your logic here\n" +
    "    always @(posedge clk or posedge reset) begin\n" +
    "        if (reset)\n" +
    "            output_signal <= 1'b0;\n" +
    "        else begin\n" +
    "            // Implement your functionality here\n" +
    "            output_signal <= 1'b1;\n" +
    "        end\n" +
    "    end\n" +
    "\n"

  const VhdlLibraries: string :=
    "library IEEE;\n" +
    "use IEEE.STD_LOGIC_1164.ALL;\n" +
    "use IEEE.NUMERIC_STD.ALL;\n"

  const VhdlPorts: string :=
    "    Port (\n" +
    "        clk : in STD_LOGIC;\n" +
    "        reset : in STD_LOGIC;\n" +
    "        -- Add your port declarations here\n" +
    "        output_signal : out STD_LOGIC\n" +
    "    );"

  const VhdlBody: string :=
    "begin\n" +
    "    process(clk, reset)\n" +
    "    begin\n" +
    "        if reset = '1' then\n" +
    "            output_signal <= '0';\n" +
    "        elsif rising_edge(clk) then\n" +
    "            -- Implement your functionality here\n" +
    "            output_signal <= '1';\n" +
    "        end if;\n" +
    "    end process;\n" +
    "end Behavioral;"
}
