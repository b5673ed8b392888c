# HDL code generator: a Dafny model

This project models the three pieces of deterministic logic in a web tool
that writes Verilog and VHDL from a text prompt and shows simulation
waveforms:

- **The `generate-verilog` edge function** (`GenerateVerilog`, `generate_verilog.dfy`).
  It has a guard that rejects a missing or empty prompt with status 400.
  A keyword classifier runs over the lower-cased prompt as an if/else-if chain, and the first match wins.
  There are seven fixed Verilog templates, plus a generic Verilog module and a generic VHDL design.
  The generic module and the VHDL design are named after an identifier derived from the prompt.
  The response carries the trimmed code and the model name "Local Verilog Generator".
- **The code generator page** (`CodeGenerator`, `code_generator.dfy`).
  It is modelled as a class with the page's four state fields: `prompt`, `generatedCode`, `language` and `isGenerating`.
  `Generate` returns the job that the delayed completion carries out, and `Complete` applies it.
  The page has its own identifier rule, fixed sample designs and a download file name.
- **The waveform viewer** (`WaveformViewer`, `waveform_viewer.dfy`).
  It holds the per-character segment decisions of the drawing loop and the running step position.
  It also holds the integer layout: canvas height, row tops and time-axis labels.
  The panel's display branches are modelled too.

The shared pieces live in two further modules:

- `Text` (`text.dfy`) models the ASCII behaviour of `toLowerCase`, `includes`, `trim`, the two regex replacements and decimal printing.
- `HdlText` (`hdl_text.dfy`) holds the shape of a Verilog module and of a VHDL design, and reads a declared name back.

`NameAgreement` (`name_agreement.dfy`) relates the page's identifier to the edge function's.

The template texts are kept verbatim. Each is split where the source splices in a name.

The edge function's identifier deletes characters outside `[a-zA-Z0-9_]`; it does not replace them with `_`.
Lines 273 and 297 of `supabase/functions/generate-verilog/index.ts` first turn each whitespace run into `_` and then remove everything else that is not a word character, so "4-bit ALU" becomes `4bit_alu` (`GenerateVerilog.SanitizeDropsPunctuation`, `NameAgreement.HyphenSeparatesNames`).

## Model

| member | source | states |
|---|---|---|
| Text.LowerStr | supabase/functions/generate-verilog/index.ts:33 | same length; each character is lower-cased (ASCII) |
| Text.LowerStrAppend | supabase/functions/generate-verilog/index.ts:33 | lower-casing distributes over concatenation |
| Text.LowerRun | supabase/functions/generate-verilog/index.ts:33 | lower-casing leaves whitespace alone |
| Text.ContainsIff | supabase/functions/generate-verilog/index.ts:36-48 | the recursive `includes` holds exactly when some window of the text equals the keyword |
| Text.Contains | supabase/functions/generate-verilog/index.ts:36-48 | `includes`; specified by `Text.ContainsIff` (some window equals the keyword), `Text.ContainsInfix` and `Text.NotContainsMissingChar` |
| Text.TrimStart | supabase/functions/generate-verilog/index.ts:60 | the result is a suffix that does not start with whitespace, and everything removed is whitespace |
| Text.TrimEnd | supabase/functions/generate-verilog/index.ts:60 | the result is a prefix that does not end with whitespace, and everything removed is whitespace |
| Text.Trim | supabase/functions/generate-verilog/index.ts:60 | `trim`; specified by `Text.TrimStart`, `Text.TrimEnd` and `Text.BlankIff`, and left unchanged by a text whose ends are not whitespace (`Text.TrimUnchanged`) |
| Text.BlankIff | src/components/CodeGenerator.tsx:12 | `!prompt.trim()` holds exactly for texts made only of whitespace, the empty text included |
| Text.Underscore | supabase/functions/generate-verilog/index.ts:273 | `replace(/\s+/g, '_')` leaves no whitespace and never lengthens the text |
| Text.UnderscoreIsScan | supabase/functions/generate-verilog/index.ts:273 | replacing each maximal whitespace run equals a one-pass scan that emits `_` only at the start of a run |
| Text.UnderscoreNoSpace | supabase/functions/generate-verilog/index.ts:273 | a text without whitespace is left unchanged |
| Text.UnderscoreAddsOnly | supabase/functions/generate-verilog/index.ts:273 | every output character is `_` or comes from the input |
| Text.UnderscoreEnds | src/components/CodeGenerator.tsx:18 | leading whitespace becomes a leading `_` (and only then does a non-`_` input start with `_`); trailing whitespace becomes a trailing `_` |
| Text.UnderscoreSplit | supabase/functions/generate-verilog/index.ts:273 | a non-whitespace character ends any run, so the two sides are replaced independently |
| Text.WhitespaceRunIff | supabase/functions/generate-verilog/index.ts:273 | a run, as `\s+` matches it, is exactly a non-empty text made only of whitespace |
| Text.UnderscoreAppend | supabase/functions/generate-verilog/index.ts:273 | after a text that does not end in whitespace no run is open, so what follows is replaced on its own |
| Text.UnderscoreRun | supabase/functions/generate-verilog/index.ts:273 | any whitespace run (blanks, tabs, newlines, any number) between texts that do not touch it with whitespace becomes exactly one `_`, the two sides replaced independently |
| Text.KeepWordChars | supabase/functions/generate-verilog/index.ts:273 | `replace(/[^a-zA-Z0-9_]/g, '')` keeps only word characters |
| Text.KeepWordCharsCounts | supabase/functions/generate-verilog/index.ts:273 | each word character keeps its number of occurrences; every other character is gone |
| Text.KeepWordCharsUnchanged | supabase/functions/generate-verilog/index.ts:273 | a text of word characters is left unchanged |
| Text.KeepWordCharsAppend | supabase/functions/generate-verilog/index.ts:273 | the deletion distributes over concatenation |
| Text.Decimal | src/components/WaveformViewer.tsx:158 | a number prints as a non-empty string of decimal digits with no leading zero (it starts with `0` exactly for 0), as a template literal prints it |
| Text.DecimalRoundTrip | src/components/WaveformViewer.tsx:158 | reading the digits back gives the number |
| Text.DecimalInjective | src/components/WaveformViewer.tsx:158 | different numbers print differently |
| HdlText.VerilogModuleShape | supabase/functions/generate-verilog/index.ts:275-293 | `module <name> (...endmodule` reads back `name` after "module ", ends with "endmodule" and is unchanged by `trim` |
| HdlText.VhdlLinesAgree | supabase/functions/generate-verilog/index.ts:303-312 | the entity, end and architecture lines all occur, with the same identifier |
| HdlText.VhdlEntityRoundTrip | supabase/functions/generate-verilog/index.ts:299-303 | the name after the library header's "entity " reads back as the identifier |
| HdlText.VhdlTrimUnchanged | supabase/functions/generate-verilog/index.ts:299-323 | `trim` leaves a design alone when its header does not start, and its body does not end, with whitespace |
| GenerateVerilog.RulesSpelledOut | supabase/functions/generate-verilog/index.ts:36-49 | the rule table matches exactly the `includes` tests of each branch, in the handler's order |
| GenerateVerilog.Classify | supabase/functions/generate-verilog/index.ts:36-52 | the keyword chain; specified by `ClassifyFirstMatch` (the first matching rule wins) and `ClassifyGenericIff` (generic exactly when none matches) |
| GenerateVerilog.ClassifyFirstMatch | supabase/functions/generate-verilog/index.ts:36-52 | when rule m matches and no earlier rule does, the classifier picks rule m's template |
| GenerateVerilog.ClassifyGenericIff | supabase/functions/generate-verilog/index.ts:36-52 | the generic module is chosen exactly when no rule matches |
| GenerateVerilog.CounterBeforeAdder | supabase/functions/generate-verilog/index.ts:38-41 | a prompt with both "counter" and "adder" (and no JK flip-flop) gets the counter |
| GenerateVerilog.ValueContainsAlu | supabase/functions/generate-verilog/index.ts:46 | any text containing "value" contains "alu" |
| GenerateVerilog.ValueShadowsShiftRegister | supabase/functions/generate-verilog/index.ts:46-49 | a prompt mentioning "value" (a "shift register value") that no earlier rule takes gets the ALU, never the shift register |
| GenerateVerilog.Sanitize | supabase/functions/generate-verilog/index.ts:273 | the identifier holds only lower-case letters, digits and `_` |
| GenerateVerilog.SanitizeFixedPointIff | supabase/functions/generate-verilog/index.ts:273 | a text is its own identifier exactly when it is made of lower-case letters, digits and `_` |
| GenerateVerilog.SanitizeIdempotent | supabase/functions/generate-verilog/index.ts:297 | deriving the identifier from an identifier returns it unchanged |
| GenerateVerilog.SanitizeDropsPunctuation | supabase/functions/generate-verilog/index.ts:273 | a character that is neither a word character nor whitespace is deleted without a separator; the two sides are sanitised independently |
| GenerateVerilog.SanitizeRun | supabase/functions/generate-verilog/index.ts:273 | a whitespace run between two words becomes one `_` between their identifiers |
| GenerateVerilog.ModuleName | supabase/functions/generate-verilog/index.ts:83-270 | each keyword template's fixed module name is non-empty and blank-free |
| GenerateVerilog.KeywordModule | supabase/functions/generate-verilog/index.ts:83-270 | the seven constant generators, verbatim; specified by `KeywordModuleShape` and `KeywordIgnoresPrompt` |
| GenerateVerilog.KeywordModuleShape | supabase/functions/generate-verilog/index.ts:83-270 | each keyword template declares its fixed name, ends with "endmodule" and is unchanged by `trim` |
| GenerateVerilog.GenericModule | supabase/functions/generate-verilog/index.ts:272-294 | `generateGenericModule`, verbatim; specified by `GenericModuleShape`, `SanitizeRun` and `SanitizeDropsPunctuation` |
| GenerateVerilog.GenericModuleShape | supabase/functions/generate-verilog/index.ts:272-294 | the generic module declares the prompt's identifier, ends with "endmodule" and is unchanged by `trim` |
| GenerateVerilog.VerilogShape | supabase/functions/generate-verilog/index.ts:35-52 | Verilog output declares the chosen template's name (the identifier for the generic module), ends with "endmodule" and is unchanged by `trim` |
| GenerateVerilog.KeywordIgnoresPrompt | supabase/functions/generate-verilog/index.ts:35-49 | two prompts that select the same keyword template get the same code, that template |
| GenerateVerilog.VhdlChosen | supabase/functions/generate-verilog/index.ts:35-56 | any language other than exactly "verilog" (a missing one included) gets the VHDL design, whatever the keywords |
| GenerateVerilog.VhdlCode | supabase/functions/generate-verilog/index.ts:296-324 | `generateVHDLCode`, verbatim; specified by `VhdlShape` |
| GenerateVerilog.Generate | supabase/functions/generate-verilog/index.ts:35-56 | the language branch; specified by `VerilogShape`, `VhdlChosen`, `GenerateTrimmed`, `CaseInsensitive` and `KeywordIgnoresPrompt` |
| GenerateVerilog.VhdlShape | supabase/functions/generate-verilog/index.ts:296-324 | the VHDL design's entity, end and architecture lines carry the identifier, the entity name reads back as it, and `trim` changes nothing |
| GenerateVerilog.GenerateTrimmed | supabase/functions/generate-verilog/index.ts:60 | `trim` never changes generated code |
| GenerateVerilog.Handle | supabase/functions/generate-verilog/index.ts:18-66 | status 400 with "Prompt is required" exactly for a missing or empty prompt; otherwise status 200, model "Local Verilog Generator" and the generated code |
| GenerateVerilog.CaseInsensitive | supabase/functions/generate-verilog/index.ts:33 | prompts with the same lower-cased form get the same code |
| GenerateVerilog.JkFlipAnyCase | supabase/functions/generate-verilog/index.ts:33-37 | "JK Flip" and "jk flip" both select the JK flip-flop |
| GenerateVerilog.NoKeywordInBlank | supabase/functions/generate-verilog/index.ts:36-52 | a whitespace-only text matches no rule |
| GenerateVerilog.BlankPromptAccepted | supabase/functions/generate-verilog/index.ts:18 | a whitespace-only prompt is not rejected: it gets the generic module named `_` |
| CodeGenerator.Identifier | src/components/CodeGenerator.tsx:18 | the page's identifier has no whitespace and no capital letters, and is never longer than the prompt |
| CodeGenerator.IdentifierOfWord | src/components/CodeGenerator.tsx:18 | a prompt without whitespace is only lower-cased |
| CodeGenerator.IdentifierRun | src/components/CodeGenerator.tsx:18 | a whitespace run between two words becomes one `_` |
| CodeGenerator.IdentifierKeepsPunctuation | src/components/CodeGenerator.tsx:18 | any other non-capital character is kept in place |
| CodeGenerator.IdentifierEnds | src/components/CodeGenerator.tsx:18 | the prompt is not trimmed: leading or trailing whitespace gives a leading or trailing `_` |
| CodeGenerator.SampleVerilog | src/components/CodeGenerator.tsx:18-32 | the Verilog sample, verbatim; specified by `SampleVerilogShape` and `VerilogFileNameMatches` |
| CodeGenerator.SampleVhdl | src/components/CodeGenerator.tsx:34-54 | the VHDL sample, verbatim; specified by `SampleVhdlShape` and `VhdlFileNameMatches` |
| CodeGenerator.Sample | src/components/CodeGenerator.tsx:17-56 | the sample for the chosen language; specified by `SampleNonEmpty` |
| CodeGenerator.SampleVerilogShape | src/components/CodeGenerator.tsx:18-32 | the Verilog sample declares the identifier after "module " and ends with "endmodule" |
| CodeGenerator.SampleVhdlShape | src/components/CodeGenerator.tsx:34-54 | the VHDL sample's entity, end and architecture lines carry the same identifier, and the entity name reads back as it |
| CodeGenerator.SampleNonEmpty | src/components/CodeGenerator.tsx:56 | the sample chosen for any language is non-empty |
| CodeGenerator.FileNameExtensionIff | src/components/CodeGenerator.tsx:69 | the file name ends with ".v" exactly for 'verilog' and with ".vhd" exactly otherwise |
| CodeGenerator.FileName | src/components/CodeGenerator.tsx:69 | the download name; specified by `FileNameExtensionIff`, `VerilogFileNameMatches` and `VhdlFileNameMatches` |
| CodeGenerator.IsBlank | src/components/CodeGenerator.tsx:12 | `!prompt.trim()`; specified by `Text.BlankIff` and the contract of `Generate` |
| CodeGenerator.VerilogFileNameMatches | src/components/CodeGenerator.tsx:69 | the Verilog file's base name is the module name the sample declares |
| CodeGenerator.VhdlFileNameMatches | src/components/CodeGenerator.tsx:69 | the VHDL file's base name is the entity name the sample declares |
| CodeGenerator.CodeGeneratorState.constructor | src/components/CodeGenerator.tsx:6-9 | empty prompt and code, language 'verilog', not generating |
| CodeGenerator.CodeGeneratorState.SetPrompt | src/components/CodeGenerator.tsx:114 | the prompt is replaced; nothing else changes |
| CodeGenerator.CodeGeneratorState.SetLanguage | src/components/CodeGenerator.tsx:88-98 | the language becomes 'verilog' or 'vhdl'; nothing else changes |
| CodeGenerator.CodeGeneratorState.GenerateEnabled | src/components/CodeGenerator.tsx:121 | the button is enabled exactly when idle with some non-whitespace character in the prompt |
| CodeGenerator.CodeGeneratorState.OutputShown | src/components/CodeGenerator.tsx:136 | the output panel shows a non-empty code; `Complete` establishes it |
| CodeGenerator.CodeGeneratorState.ButtonLabel | src/components/CodeGenerator.tsx:129 | the button reads "Generating..." exactly while generating |
| CodeGenerator.CodeGeneratorState.Generate | src/components/CodeGenerator.tsx:11-14 | a blank prompt (empty or only whitespace) changes nothing and schedules nothing, so an enabled button always starts a job; otherwise the busy flag goes up and the job records this click's prompt and language |
| CodeGenerator.CodeGeneratorState.Complete | src/components/CodeGenerator.tsx:17-58 | the code becomes the sample for the job's prompt and language, the busy flag goes down, the output panel shows; prompt and language stay |
| CodeGenerator.CodeGeneratorState.Download | src/components/CodeGenerator.tsx:65-72 | the file holds the current code and is named from the current prompt and language, ".v" exactly for 'verilog', ".vhd" exactly for 'vhdl' |
| NameAgreement.ServerNameFromPageName | supabase/functions/generate-verilog/index.ts:273 | the edge function's identifier is the page's identifier with every non-word character deleted |
| NameAgreement.NamesAgreeIff | supabase/functions/generate-verilog/index.ts:273 | the two identifiers agree exactly when the page's identifier has only letters, digits and `_` |
| NameAgreement.HyphenSeparatesNames | supabase/functions/generate-verilog/index.ts:273 | around a hyphen the page keeps it and the edge function drops it, so the two identifiers differ |
| WaveformViewer.DrawWave | src/components/WaveformViewer.tsx:86-148 | the character loop draws, for every character i, the segment the per-token rule gives, at step i of the running position |
| WaveformViewer.SegmentAt | src/components/WaveformViewer.tsx:92-145 | the per-character drawing rule; specified by `BlankIffUnknown`, `RisingEdgeIff`, `FallingEdgeIff`, `DotFollowsOnlyItsNeighbour` and `AliasesDrawAlike` |
| WaveformViewer.Steps | src/components/WaveformViewer.tsx:86-148 | the steps of a whole wave, character i at step i; specified by `DrawWave`, `StepsPrefixStable`, `LevelsAsIntended` and `EdgesAtLevelChanges` |
| WaveformViewer.BlankIffUnknown | src/components/WaveformViewer.tsx:92-145 | a character draws nothing exactly when it is none of 0 1 L H p P n N x X . = |
| WaveformViewer.AliasesDrawAlike | src/components/WaveformViewer.tsx:92-125 | H/1, L/0, P/p, N/n and X/x are interchangeable: the row drawn is the same |
| WaveformViewer.StepsPrefixStable | src/components/WaveformViewer.tsx:89-148 | characters appended later never change the steps already drawn |
| WaveformViewer.LevelsAsIntended | src/components/WaveformViewer.tsx:126-133 | in a wave of levels and '.', with no two '.' in a row, every step is drawn at the level that '.'-continues-previous gives |
| WaveformViewer.EdgesAtLevelChanges | src/components/WaveformViewer.tsx:92-105 | in a wave of 0/1/L/H, an edge is drawn at the first step and exactly where the level changes |
| WaveformViewer.RisingEdgeIff | src/components/WaveformViewer.tsx:92-98 | a high character is drawn high, after an edge exactly when first or after '0', 'L' or '.' |
| WaveformViewer.FallingEdgeIff | src/components/WaveformViewer.tsx:99-105 | a low character is drawn low, after an edge exactly when first or after '1' or 'H' |
| WaveformViewer.DotFollowsOnlyItsNeighbour | src/components/WaveformViewer.tsx:126-133 | '.' draws no edge and is high exactly after '1' or 'H' |
| WaveformViewer.SecondDotDropsLow | src/components/WaveformViewer.tsx:126-133 | "1.." is drawn high, high, then low although the level was meant to stay high |
| WaveformViewer.EdgeAfterHighDot | src/components/WaveformViewer.tsx:94-97 | in "1.1" the second '1' gets a rising edge although the level never fell |
| WaveformViewer.DotAfterNegativePulse | src/components/WaveformViewer.tsx:113-133 | "n." draws a negative pulse, then a low '.' |
| WaveformViewer.CanvasHeight | src/components/WaveformViewer.tsx:46 | the height is max(200, 50n + 40) |
| WaveformViewer.RowTop | src/components/WaveformViewer.tsx:68-74 | the top of row k is 30 + 50k; specified by `RowsDisjoint` and `RowFits` |
| WaveformViewer.RowsDisjoint | src/components/WaveformViewer.tsx:68-74 | rows at 30 + 50k lie below the top edge, one below the other, without overlapping |
| WaveformViewer.RowFits | src/components/WaveformViewer.tsx:46-74 | every row of a canvas for n signals, row 0 and a single signal included, ends at least 30 pixels above the bottom, where the labels sit |
| WaveformViewer.DrawTimeAxis | src/components/WaveformViewer.tsx:156-159 | exactly 11 labels, label i reading i·10 followed by "ns", 5 pixels above the bottom |
| WaveformViewer.TimeLabelsDistinct | src/components/WaveformViewer.tsx:156-158 | the labels run from "0ns" to "100ns" and no two are alike |
| WaveformViewer.RenderWaveform | src/components/WaveformViewer.tsx:38-160 | canvas height, one row per signal at its row top with its name and steps, and the time axis |
| WaveformViewer.PanelOf | src/components/WaveformViewer.tsx:162-261 | spinner exactly while simulating; placeholder exactly when idle without a result; otherwise the report shows the timing and output, the badge reads "Passed" iff success, the waveform shows iff success, and the error and warning lists show iff non-empty |

## Left out

- HTTP plumbing of the edge function: `serve`, the CORS preflight, `req.json()`, the headers, `console.log` and the status-500 path for a failing request. The request is (optional prompt, optional language) and the response a datatype.
- Request: a prompt that is present but not a string is not modelled. A falsy one (`null`, `0`, `false`) gets the status-400 answer, as a missing prompt does (index.ts:18). Any other (a non-zero number, an array, an object) throws at `toLowerCase` (index.ts:33) and ends in the status-500 path.
- Unicode: `toLowerCase`, the regex class `\s` and `trim` are modelled on ASCII letters and ASCII whitespace only.
- GenerateVerilog.CaseInsensitive: stated for the generated code, not for the whole response. The guard looks only at emptiness, which lower-casing preserves, and `Handle` ties the response to the generated code.
- CodeGenerator timing: the 2000 ms delay of the simulated request is not modelled. `Generate` and `Complete` are separate steps that callers may interleave with other methods in any order. The Enter key (CodeGenerator.tsx:117) can start a second job while one is pending; whichever completion comes last wins.
- Copying to the clipboard, the Blob and anchor work of the download, and the output heading `language.toUpperCase()` are not modelled. The example-prompt buttons are `SetPrompt`.
- WaveformViewer pixel geometry: `clientWidth || 600`, the fractional `stepWidth`, the grid lines, colours and fonts are not modelled. The path drawn inside a step is also left out, and so is the way `lineTo` continues from wherever the previous segment left the pen. A step is a `Segment` placed at its step index. In particular, a `Level` step that opens the path draws no line, because a first `lineTo` after `beginPath` only moves the pen (WaveformViewer.tsx:84). This happens, for example, for a leading `.`, for a `.` that follows only `x` or unrecognised characters (the `.` of "x."), and for an edge-free `1`/`0` that follows only such characters (the `1` of "x1").
- WaveformViewer: the `data` values of a bus signal are carried but never drawn, as in the source. The effect that re-renders the canvas is reduced to "the waveform is shown on success".
- The chat function and chatbot page, the static pages and whatever produces the simulation result that WaveformViewer receives as a prop (not among these files) are not part of this model.
