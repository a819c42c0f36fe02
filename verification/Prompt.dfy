/** The length-prefixed framing of a provider prompt, and its decoder. */
module Prompt {
  import opened Decimal
  import opened Options

  /** One character per byte. */
  type Bytes = string

  const HEADER: Bytes := "AI_CLI_GATEWAY/1\n"

  const NO_INSTRUCTIONS: Bytes := "INSTRUCTIONS NULL\n"

  const PLAIN_CONTRACT: Bytes := "Return only the final answer as plain text."

  const INLINE_INSTRUCTION: Bytes := "Return exactly one JSON object and no surrounding text."

  const FILE_CONTRACT: Bytes :=
    "Follow the JSON Schema supplied in the gateway-owned schema file and return exactly one JSON object with no surrounding text."

  /** How the schema reaches the provider. */
  datatype Delivery = Inline | SchemaFile | OtherDelivery

  /** The requested format; an inline schema is its encoding, if it has one. */
  datatype OutputFormat = Text | JsonSchema(encoded: Option<Bytes>) | OtherFormat

  datatype Parts = Parts(instructions: Option<Bytes>, input: Bytes, contract: Bytes)

  function OutputContract(format: OutputFormat, delivery: Delivery): Option<Bytes> {
    match format
    case Text => Some(PLAIN_CONTRACT)
    case JsonSchema(encoded) =>
      if delivery.SchemaFile? then Some(FILE_CONTRACT)
      else if encoded.None? then None
      else Some(encoded.value + "\n" + INLINE_INSTRUCTION)
    case OtherFormat => None
  }

  /** There is a contract for the format: for a schema that is sent along only if it can be encoded. */
  ghost predicate Deliverable(format: OutputFormat, delivery: Delivery) {
    && format != OtherFormat && delivery != OtherDelivery
    && (format == JsonSchema(None) ==> delivery == SchemaFile)
  }

  /**
   What the contract tells the provider: the fixed text of a plain answer exactly for plain
   text, the fixed text of the schema file exactly for a schema in a file, and otherwise the
   schema itself, on its own lines before the instruction.
   */
  ghost predicate Tells(format: OutputFormat, delivery: Delivery, contract: Bytes) {
    && (contract == PLAIN_CONTRACT <==> format == Text)
    && (contract == FILE_CONTRACT <==> format.JsonSchema? && delivery == SchemaFile)
    && (format.JsonSchema? && delivery == Inline ==> format.encoded != None && contract == format.encoded.value + "\n" + INLINE_INSTRUCTION)
  }

  lemma ContractTells(format: OutputFormat, delivery: Delivery)
    requires delivery != OtherDelivery
    ensures OutputContract(format, delivery).Some? <==> Deliverable(format, delivery)
    ensures Deliverable(format, delivery) ==> Tells(format, delivery, OutputContract(format, delivery).value)
  {
    ContractLengths();
    hide PLAIN_CONTRACT, FILE_CONTRACT, INLINE_INSTRUCTION;
    if format.JsonSchema? && format.encoded.Some? {
      var contract := format.encoded.value + "\n" + INLINE_INSTRUCTION;
      assert contract[|contract| - 22] == INLINE_INSTRUCTION[33];
    }
  }

  /** The fixed texts differ in length, and that of the file does not end as an inline contract does. */
  lemma ContractLengths()
    ensures |PLAIN_CONTRACT| == 43 && |INLINE_INSTRUCTION| == 55 && |FILE_CONTRACT| == 125
    ensures FILE_CONTRACT[103] == 'h' && INLINE_INSTRUCTION[33] == 'd'
  {
  }

  function Section(name: Bytes, value: Bytes): Bytes {
    name + " " + Format(|value|) + "\n" + value + "\n"
  }

  function Frame(p: Parts): Bytes {
    HEADER
    + (if p.instructions.None? then NO_INSTRUCTIONS else Section("INSTRUCTIONS", p.instructions.value))
    + Section("INPUT", p.input) + Section("OUTPUT_CONTRACT", p.contract)
  }

  method WriteSection(buffer: Bytes, name: Bytes, value: Bytes) returns (after: Bytes)
    ensures after == buffer + Section(name, value)
  {
    after := buffer + name + " " + Format(|value|) + "\n";
    after := after + value;
    after := after + "\n";
  }

  method BuildPrompt(instructions: Option<Bytes>, input: Bytes, format: OutputFormat, delivery: Delivery) returns (prompt: Option<Bytes>)
    ensures prompt.Some? <==> Deliverable(format, delivery)
    ensures prompt.Some? ==> exists contract | Tells(format, delivery, contract) :: prompt.value == Frame(Parts(instructions, input, contract))
  {
    if delivery.OtherDelivery? {
      return None;
    }
    var contract := OutputContract(format, delivery);
    ContractTells(format, delivery);
    hide Tells, Deliverable, OutputContract, Format;
    if contract.None? {
      return None;
    }
    var buffer := HEADER;
    if instructions.None? {
      buffer := buffer + NO_INSTRUCTIONS;
    } else {
      buffer := WriteSection(buffer, "INSTRUCTIONS", instructions.value);
    }
    buffer := WriteSection(buffer, "INPUT", input);
    buffer := WriteSection(buffer, "OUTPUT_CONTRACT", contract.value);
    prompt := Some(buffer);
    assert buffer == Frame(Parts(instructions, input, contract.value));
  }

  // ---- decoding ----

  function Stripped(s: Bytes, prefix: Bytes): Option<Bytes> {
    if prefix <= s then Some(s[|prefix|..]) else None
  }

  function DigitCount(s: Bytes): (n: nat)
    ensures n <= |s| && AllDigits(s[..n]) && (n < |s| ==> !IsDigit(s[n]))
  {
    if s == "" || !IsDigit(s[0]) then 0
    else
      var rest := DigitCount(s[1..]);
      assert s[..rest + 1] == [s[0]] + s[1..][..rest];
      rest + 1
  }

  /** A section's value and what follows it; the length must be written as the framing writes it. */
  function ReadSection(name: Bytes, s: Bytes): Option<(Bytes, Bytes)> {
    var body := Stripped(s, name + " ");
    if body.None? then None else ReadBody(body.value)
  }

  function ReadBody(body: Bytes): Option<(Bytes, Bytes)> {
    var n := DigitCount(body);
    var digits, rest := body[..n], body[n..];
    if !NoLeadingZero(digits) || rest == "" || rest[0] != '\n' then None
    else
      var length := Value(digits);
      if |rest| < length + 2 || rest[1 + length] != '\n' then None
      else Some((rest[1..1 + length], rest[length + 2..]))
  }

  function ReadInstructions(s: Bytes): Option<(Option<Bytes>, Bytes)> {
    var none := Stripped(s, NO_INSTRUCTIONS);
    if none.Some? then Some((None, none.value))
    else
      var read := ReadSection("INSTRUCTIONS", s);
      if read.None? then None else Some((Some(read.value.0), read.value.1))
  }

  function Decode(s: Bytes): Option<Parts> {
    var afterHeader := Stripped(s, HEADER);
    if afterHeader.None? then None
    else
      var instructions := ReadInstructions(afterHeader.value);
      if instructions.None? then None
      else
        var input := ReadSection("INPUT", instructions.value.1);
        if input.None? then None
        else
          var contract := ReadSection("OUTPUT_CONTRACT", input.value.1);
          if contract.None? || contract.value.1 != "" then None
          else Some(Parts(instructions.value.0, input.value.0, contract.value.0))
  }

  lemma {:induction false} CountsDigits(digits: Bytes, rest: Bytes)
    requires AllDigits(digits) && (rest != "" ==> !IsDigit(rest[0]))
    ensures DigitCount(digits + rest) == |digits|
  {
    if digits == "" {
      assert digits + rest == rest;
    } else {
      assert digits[0] in digits;
      assert (digits + rest)[1..] == digits[1..] + rest;
      CountsDigits(digits[1..], rest);
    }
  }

  lemma Strips(prefix: Bytes, rest: Bytes)
    ensures Stripped(prefix + rest, prefix) == Some(rest)
  {
  }

  /** What was written as a section is read back, whatever the value and whatever follows. */
  lemma ReadsSection(name: Bytes, value: Bytes, rest: Bytes)
    ensures ReadSection(name, Section(name, value) + rest) == Some((value, rest))
  {
    var digits := Format(|value|);
    FormatIsCanonical(|value|);
    var tail := "\n" + value + "\n" + rest;
    SectionShape(name, value, rest);
    Strips(name + " ", digits + tail);
    CountsDigits(digits, tail);
    hide Format, DigitCount, Value;
    var body := digits + tail;
    assert body[..|digits|] == digits && body[|digits|..] == tail;
    assert tail[1..1 + |value|] == value && tail[1 + |value|] == '\n' && tail[|value| + 2..] == rest;
  }

  lemma SectionShape(name: Bytes, value: Bytes, rest: Bytes)
    ensures Section(name, value) + rest == (name + " ") + (Format(|value|) + ("\n" + value + "\n" + rest))
  {
    var head, digits := name + " ", Format(|value|);
    var body := "\n" + value + "\n";
    assert Section(name, value) == head + digits + body by {
      Regroup(head + digits, "\n" + value, "\n");
      Regroup(head + digits, "\n", value);
    }
    Regroup(head + digits, body, rest);
    Regroup(head, digits, body + rest);
  }

  lemma Regroup(a: Bytes, b: Bytes, c: Bytes)
    ensures a + b + c == a + (b + c)
  {
  }

  /** A present value is never mistaken for absent instructions. */
  lemma NotAbsent(value: Bytes, rest: Bytes)
    ensures Stripped(Section("INSTRUCTIONS", value) + rest, NO_INSTRUCTIONS).None?
  {
    FormatIsCanonical(|value|);
    var s := Section("INSTRUCTIONS", value) + rest;
    SectionShape("INSTRUCTIONS", value, rest);
    assert s[13] == Format(|value|)[0] && Format(|value|)[0] in Format(|value|);
    assert NO_INSTRUCTIONS[13] == 'N' && !IsDigit('N');
  }

  /** Every prompt is decoded to exactly the parts it was built from. */
  lemma DecodeFrame(p: Parts)
    ensures Decode(Frame(p)) == Some(p)
  {
    hide ReadSection, Stripped, Section;
    var input, contract := Section("INPUT", p.input), Section("OUTPUT_CONTRACT", p.contract);
    var instructions := if p.instructions.None? then NO_INSTRUCTIONS else Section("INSTRUCTIONS", p.instructions.value);
    assert Frame(p) == HEADER + (instructions + (input + contract));
    Strips(HEADER, instructions + (input + contract));
    if p.instructions.None? {
      Strips(NO_INSTRUCTIONS, input + contract);
    } else {
      NotAbsent(p.instructions.value, input + contract);
      ReadsSection("INSTRUCTIONS", p.instructions.value, input + contract);
    }
    ReadsSection("INPUT", p.input, contract);
    ReadsSection("OUTPUT_CONTRACT", p.contract, "");
    assert contract + "" == contract;
  }

  /** Different parts never give the same prompt. */
  lemma FramesDiffer(p: Parts, q: Parts)
    requires Frame(p) == Frame(q)
    ensures p == q
  {
    DecodeFrame(p);
    DecodeFrame(q);
  }

  lemma Framed(rest: Bytes, length: nat)
    requires |rest| >= length + 2 && rest[0] == '\n' && rest[1 + length] == '\n'
    ensures rest == "\n" + rest[1..1 + length] + "\n" + rest[length + 2..]
  {
  }

  lemma BodyRead(body: Bytes)
    requires ReadBody(body).Some?
    ensures var (value, after) := ReadBody(body).value;
            body == Format(|value|) + ("\n" + value + "\n" + after)
  {
    var n := DigitCount(body);
    var digits, rest := body[..n], body[n..];
    CanonicalIsFormat(digits);
    hide Format, DigitCount, Value, NoLeadingZero;
    Framed(rest, Value(digits));
    assert body == digits + rest;
  }

  lemma SectionRead(name: Bytes, s: Bytes)
    requires ReadSection(name, s).Some?
    ensures s == Section(name, ReadSection(name, s).value.0) + ReadSection(name, s).value.1
  {
    var body := Stripped(s, name + " ").value;
    var (value, after) := ReadBody(body).value;
    BodyRead(body);
    SectionShape(name, value, after);
    assert s == (name + " ") + body;
  }

  /** Only prompts are decoded: the decoder accepts nothing the framing does not write. */
  lemma FrameDecode(s: Bytes)
    requires Decode(s).Some?
    ensures Frame(Decode(s).value) == s
  {
    hide ReadSection, Section;
    var afterHeader := Stripped(s, HEADER).value;
    assert s == HEADER + afterHeader;
    var read := ReadInstructions(afterHeader).value;
    if Stripped(afterHeader, NO_INSTRUCTIONS).Some? {
      assert afterHeader == NO_INSTRUCTIONS + read.1;
    } else {
      SectionRead("INSTRUCTIONS", afterHeader);
    }
    SectionRead("INPUT", read.1);
    SectionRead("OUTPUT_CONTRACT", ReadSection("INPUT", read.1).value.1);
  }
}
