/**
 * Attribution of transaction log lines to the program that emitted them, by walking the invoke stack. Lines are the
 * texts of the runtime's log, so a message that looks like one of the runtime's own lines is read as that line.
 */
module ProgramLogs {
  import opened Prelude

  /** A program's address as the log spells it. */
  type Program = string

  // ---- reading a line --------------------------------------------------------------------------------------------

  const PROGRAM := "Program "
  const INVOKE := " invoke ["
  const SUCCESS := " success"
  const FAILED := " failed"

  predicate StartsWith(s: string, prefix: string) {
    |s| >= |prefix| && s[..|prefix|] == prefix
  }

  /** Where the run of characters that are no white space, from i on, ends. */
  function WordEnd(s: string, i: nat): (j: nat)
    requires i <= |s|
    ensures i <= j <= |s|
    ensures forall k | i <= k < j :: !IsSpace(s[k])
    ensures j < |s| ==> IsSpace(s[j])
    decreases |s| - i
  {
    if i == |s| || IsSpace(s[i]) then i else WordEnd(s, i + 1)
  }

  predicate Digits(s: string) {
    s != "" && forall k | 0 <= k < |s| :: '0' <= s[k] <= '9'
  }

  predicate EndsLine(ch: char) {
    ch as int == 0xA || ch as int == 0xD || ch as int == 0x2028 || ch as int == 0x2029
  }

  /** ` invoke [`, digits and a closing bracket. */
  predicate InvokeTail(s: string) {
    StartsWith(s, INVOKE) && |s| > |INVOKE| && s[|s| - 1] == ']' && Digits(s[|INVOKE|..|s| - 1])
  }

  /** ` success`, or ` failed` with anything after it on the same line. */
  predicate EndTail(s: string) {
    s == SUCCESS || (StartsWith(s, FAILED) && forall k | |FAILED| <= k < |s| :: !EndsLine(s[k]))
  }

  /** The word after `Program ` and what follows it. */
  datatype Words = NoWords | Words(word: string, tail: string)

  function WordsOf(line: string): Words {
    if !StartsWith(line, PROGRAM) then NoWords
    else
      var j := WordEnd(line, |PROGRAM|);
      if j == |PROGRAM| then NoWords else Words(line[|PROGRAM|..j], line[j..])
  }

  function InvokeOf(line: string): Option<Program> {
    var w := WordsOf(line);
    if w.Words? && InvokeTail(w.tail) then Some(w.word) else None
  }

  function EndOf(line: string): Option<Program> {
    var w := WordsOf(line);
    if w.Words? && EndTail(w.tail) then Some(w.word) else None
  }

  datatype Channel = LogLines | DataLines

  function Prefix(channel: Channel): string {
    match channel
    case LogLines => "Program log: "
    case DataLines => "Program data: "
  }

  // ---- the walk --------------------------------------------------------------------------------------------------

  /** The stack of programs running, and the lines attributed so far. */
  datatype Walk = Walk(stack: seq<Program>, own: seq<string>)

  function Step(w: Walk, line: string, target: Program, channel: Channel): Walk {
    var n := |w.stack|;
    var invoked, ended := InvokeOf(line), EndOf(line);
    if invoked.Some? then w.(stack := w.stack + [invoked.value])
    else if ended.Some? && n > 0 && w.stack[n - 1] == ended.value then w.(stack := w.stack[..n - 1])
    else if StartsWith(line, Prefix(channel)) && n > 0 && w.stack[n - 1] == target then
      w.(own := w.own + [line[|Prefix(channel)|..]])
    else w
  }

  function Continue(w: Walk, lines: seq<string>, target: Program, channel: Channel): Walk
    decreases |lines|
  {
    if lines == [] then w else Continue(Step(w, lines[0], target, channel), lines[1..], target, channel)
  }

  function Walked(lines: seq<string>, target: Program, channel: Channel): Walk {
    Continue(Walk([], []), lines, target, channel)
  }

  method GetOwnLogLines(lines: seq<string>, target: Program) returns (own: seq<string>)
    ensures own == Walked(lines, target, LogLines).own
  {
    var prefix := Prefix(LogLines);
    var stack: seq<Program> := [];
    own := [];
    var i := 0;
    while i < |lines|
      invariant i <= |lines|
      invariant Continue(Walk(stack, own), lines[i..], target, LogLines) == Walked(lines, target, LogLines)
    {
      var line := lines[i];
      assert lines[i..][1..] == lines[i + 1..];
      i := i + 1;
      var invoked := InvokeOf(line);
      if invoked.Some? {
        stack := stack + [invoked.value];
        continue;
      }
      var ended := EndOf(line);
      if ended.Some? && |stack| > 0 && stack[|stack| - 1] == ended.value {
        stack := stack[..|stack| - 1];
        continue;
      }
      if StartsWith(line, prefix) && |stack| > 0 && stack[|stack| - 1] == target {
        own := own + [line[|prefix|..]];
      }
    }
  }

  datatype Payload = Payload(index: nat, base64: string)

  /** Data lines of the target, numbered from 0. */
  method GetOwnProgramDataPayloads(lines: seq<string>, target: Program) returns (payloads: seq<Payload>)
    ensures |payloads| == |Walked(lines, target, DataLines).own|
    ensures forall i | 0 <= i < |payloads| :: payloads[i] == Payload(i, Walked(lines, target, DataLines).own[i])
  {
    var prefix := Prefix(DataLines);
    var stack: seq<Program> := [];
    payloads := [];
    var index := 0;
    ghost var own: seq<string> := [];
    var i := 0;
    while i < |lines|
      invariant i <= |lines|
      invariant Continue(Walk(stack, own), lines[i..], target, DataLines) == Walked(lines, target, DataLines)
      invariant index == |payloads| == |own|
      invariant forall k | 0 <= k < |payloads| :: payloads[k] == Payload(k, own[k])
    {
      var line := lines[i];
      assert lines[i..][1..] == lines[i + 1..];
      i := i + 1;
      var invoked := InvokeOf(line);
      if invoked.Some? {
        stack := stack + [invoked.value];
        continue;
      }
      var ended := EndOf(line);
      if ended.Some? && |stack| > 0 && stack[|stack| - 1] == ended.value {
        stack := stack[..|stack| - 1];
        continue;
      }
      if StartsWith(line, prefix) && |stack| > 0 && stack[|stack| - 1] == target {
        payloads := payloads + [Payload(index, line[|prefix|..])];
        own := own + [line[|prefix|..]];
        index := index + 1;
      }
    }
  }

  lemma {:induction false} WalkInTwo(w: Walk, a: seq<string>, b: seq<string>, target: Program, channel: Channel)
    ensures Continue(w, a + b, target, channel) == Continue(Continue(w, a, target, channel), b, target, channel)
    decreases |a|
  {
    if a == [] {
      assert a + b == b;
    } else {
      assert (a + b)[0] == a[0] && (a + b)[1..] == a[1..] + b;
      WalkInTwo(Step(w, a[0], target, channel), a[1..], b, target, channel);
    }
  }

  lemma OneLine(w: Walk, line: string, target: Program, channel: Channel)
    ensures Continue(w, [line], target, channel) == Step(w, line, target, channel)
  {
    assert [line][1..] == [];
  }

  lemma {:induction false} WalkingOnlyAdds(w: Walk, lines: seq<string>, target: Program, channel: Channel)
    ensures w.own <= Continue(w, lines, target, channel).own
    decreases |lines|
  {
    if lines != [] {
      WalkingOnlyAdds(Step(w, lines[0], target, channel), lines[1..], target, channel);
    }
  }

  /** Logs cut off anywhere lose later lines only: what is attributed is a prefix of the whole. */
  lemma TruncationLosesOnlyTheEnd(lines: seq<string>, n: nat, target: Program, channel: Channel)
    requires n <= |lines|
    ensures Walked(lines[..n], target, channel).own <= Walked(lines, target, channel).own
  {
    assert lines == lines[..n] + lines[n..];
    WalkInTwo(Walk([], []), lines[..n], lines[n..], target, channel);
    WalkingOnlyAdds(Walked(lines[..n], target, channel), lines[n..], target, channel);
  }

  // ---- what the runtime prints -----------------------------------------------------------------------------------

  /**
   * What a program does, in order: it logs, emits data, or calls a program that does the same and succeeds or fails, as
   * the ending of its last line says; in between the runtime notes.
   */
  datatype Item =
    | Logs(text: string)
    | Emits(text: string)
    | Notes(line: string)
    | Calls(program: Program, body: Forest, ending: string)
  datatype Forest = Nothing | Then(head: Item, tail: Forest)

  function Decimal(n: nat): (s: string)
    ensures Digits(s)
  {
    if n < 10 then [('0' as int + n) as char] else Decimal(n / 10) + Decimal(n % 10)
  }

  function InvokeLine(program: Program, depth: nat): string {
    PROGRAM + program + INVOKE + Decimal(depth) + "]"
  }

  function EndLine(program: Program, ending: string): string {
    PROGRAM + program + ending
  }

  function Printed(item: Item, depth: nat): seq<string> {
    match item
    case Logs(text) => [Prefix(LogLines) + text]
    case Emits(text) => [Prefix(DataLines) + text]
    case Notes(line) => [line]
    case Calls(program, body, ending) =>
      [InvokeLine(program, depth + 1)] + PrintedAll(body, depth + 1) + [EndLine(program, ending)]
  }

  /** The runtime's flat log of a forest of nested invocations. */
  function PrintedAll(forest: Forest, depth: nat): seq<string> {
    match forest
    case Nothing => []
    case Then(head, tail) => Printed(head, depth) + PrintedAll(tail, depth)
  }

  function Texts(text: string, keep: bool): seq<string> {
    if keep then [text] else []
  }

  function OwnOf(item: Item, running: seq<Program>, target: Program, channel: Channel): seq<string> {
    var mine := running != [] && running[|running| - 1] == target;
    match item
    case Logs(text) => Texts(text, mine && channel.LogLines?)
    case Emits(text) => Texts(text, mine && channel.DataLines?)
    case Notes(_) => []
    case Calls(program, body, _) => Own(body, running + [program], target, channel)
  }

  /** What the target itself emitted: lines of items it runs directly, at whatever depth it is called. */
  function Own(forest: Forest, running: seq<Program>, target: Program, channel: Channel): seq<string> {
    match forest
    case Nothing => []
    case Then(head, tail) => OwnOf(head, running, target, channel) + Own(tail, running, target, channel)
  }

  /** An address is a word without the colon of the runtime's own prefixes. */
  predicate Address(p: Program) {
    p != "" && forall k | 0 <= k < |p| :: !IsSpace(p[k]) && p[k] != ':'
  }

  /** A message that looks like an invocation once it stands behind its prefix. */
  predicate InvokeShaped(text: string) {
    InvokeTail(" " + text)
  }

  /** A line of the runtime that neither invokes nor ends nor logs anything: compute units, return data. */
  predicate Aside(line: string) {
    InvokeOf(line).None? && EndOf(line).None?
    && !StartsWith(line, Prefix(LogLines)) && !StartsWith(line, Prefix(DataLines))
  }

  /** Programs have addresses and end as programs do, and the runtime's other lines are asides. */
  predicate Genuine(forest: Forest) {
    match forest
    case Nothing => true
    case Then(head, tail) =>
      && Genuine(tail) && (head.Notes? ==> Aside(head.line))
      && (head.Calls? ==> Address(head.program) && EndTail(head.ending) && Genuine(head.body))
  }

  /** Nothing logged or emitted looks like an invocation. */
  predicate Plain(forest: Forest) {
    match forest
    case Nothing => true
    case Then(head, tail) =>
      && Plain(tail) && (head.Calls? ==> Plain(head.body))
      && (head.Logs? || head.Emits? ==> !InvokeShaped(head.text))
  }

  /** Only programs log and emit: at the top there are invocations and asides. */
  predicate FromPrograms(forest: Forest) {
    match forest
    case Nothing => true
    case Then(head, tail) => FromPrograms(tail) && !head.Logs? && !head.Emits?
  }

  // ---- how printed lines read ------------------------------------------------------------------------------------

  predicate Word(s: string) {
    s != "" && forall k | 0 <= k < |s| :: !IsSpace(s[k])
  }

  lemma ReadsAsWords(word: string, tail: string)
    requires Word(word) && (tail != "" ==> IsSpace(tail[0]))
    ensures WordsOf(PROGRAM + word + tail) == Words(word, tail)
  {
    var line, n := PROGRAM + word + tail, |PROGRAM|;
    assert line[..n] == PROGRAM;
    assert forall k | n <= k < n + |word| :: line[k] == word[k - n];
    assert tail != "" ==> line[n + |word|] == tail[0];
    var j := WordEnd(line, n);
    assert j == n + |word|;
    assert line[n..j] == word && line[j..] == tail;
  }

  lemma InvokeLineReads(program: Program, depth: nat)
    requires Word(program)
    ensures InvokeOf(InvokeLine(program, depth)) == Some(program)
  {
    var tail := INVOKE + Decimal(depth) + "]";
    assert InvokeLine(program, depth) == PROGRAM + program + tail;
    ReadsAsWords(program, tail);
    assert tail[..|INVOKE|] == INVOKE && tail[|INVOKE|..|tail| - 1] == Decimal(depth);
  }

  lemma EndLineReads(program: Program, ending: string)
    requires Word(program) && EndTail(ending)
    ensures InvokeOf(EndLine(program, ending)).None? && EndOf(EndLine(program, ending)) == Some(program)
  {
    StartsLike(ending, FAILED, 0);
    StartsLike(ending, FAILED, 1);
    StartsLike(ending, INVOKE, 1);
    ReadsAsWords(program, ending);
  }

  /** The word that a message's prefix reads as. */
  function Tag(channel: Channel): string {
    match channel
    case LogLines => "log:"
    case DataLines => "data:"
  }

  lemma MessageReads(text: string, channel: Channel)
    ensures WordsOf(Prefix(channel) + text) == Words(Tag(channel), " " + text)
    ensures InvokeOf(Prefix(channel) + text).Some? <==> InvokeShaped(text)
    ensures EndOf(Prefix(channel) + text).Some? ==> EndOf(Prefix(channel) + text).value == Tag(channel)
  {
    assert Prefix(channel) == PROGRAM + Tag(channel) + " ";
    assert Prefix(channel) + text == PROGRAM + Tag(channel) + (" " + text);
    ReadsAsWords(Tag(channel), " " + text);
  }

  lemma PrefixesDiffer(text: string, written: Channel, channel: Channel)
    ensures StartsWith(Prefix(written) + text, Prefix(channel)) <==> written == channel
    ensures (Prefix(written) + text)[|Prefix(written)|..] == text
  {
    var line := Prefix(written) + text;
    assert line[..|Prefix(written)|] == Prefix(written);
    StartsLike(line, Prefix(channel), 8);
  }

  lemma StartsLike(s: string, prefix: string, k: nat)
    requires k < |prefix|
    ensures StartsWith(s, prefix) ==> s[k] == prefix[k]
  {
    assert StartsWith(s, prefix) ==> s[k] == s[..|prefix|][k];
  }

  // ---- attribution inverts printing ------------------------------------------------------------------------------

  predicate Addresses(stack: seq<Program>) {
    forall k | 0 <= k < |stack| :: Address(stack[k])
  }

  lemma MessageWalked(w: Walk, text: string, written: Channel, target: Program, channel: Channel)
    requires Addresses(w.stack) && !InvokeShaped(text)
    ensures Step(w, Prefix(written) + text, target, channel)
      == Walk(w.stack, w.own + Texts(text, w.stack != [] && w.stack[|w.stack| - 1] == target && written == channel))
  {
    MessageReads(text, written);
    PrefixesDiffer(text, written, channel);
    assert Tag(written)[|Tag(written)| - 1] == ':';
    assert w.stack != [] ==> Address(w.stack[|w.stack| - 1]) && w.stack[|w.stack| - 1] != Tag(written);
    assert w.own + [] == w.own;
  }

  predicate GoodItem(item: Item) {
    Genuine(Then(item, Nothing)) && Plain(Then(item, Nothing))
  }

  lemma GoodHead(head: Item, tail: Forest)
    requires Genuine(Then(head, tail)) && Plain(Then(head, tail))
    ensures GoodItem(head) && Genuine(tail) && Plain(tail)
  {
    assert Genuine(Nothing) && Plain(Nothing);
  }

  lemma {:induction false} ItemWalked(w: Walk, item: Item, depth: nat, target: Program, channel: Channel)
    requires Addresses(w.stack) && GoodItem(item)
    ensures Continue(w, Printed(item, depth), target, channel)
      == Walk(w.stack, w.own + OwnOf(item, w.stack, target, channel))
    decreases item, 0
  {
    match item
    case Logs(text) =>
      OneLine(w, Prefix(LogLines) + text, target, channel);
      MessageWalked(w, text, LogLines, target, channel);
    case Emits(text) =>
      OneLine(w, Prefix(DataLines) + text, target, channel);
      MessageWalked(w, text, DataLines, target, channel);
    case Notes(line) =>
      OneLine(w, line, target, channel);
      assert w.own + [] == w.own;
    case Calls(program, body, ending) => CallWalked(w, program, body, ending, depth, target, channel);
  }

  lemma {:induction false} CallWalked(
    w: Walk, program: Program, body: Forest, ending: string, depth: nat, target: Program, channel: Channel)
    requires Addresses(w.stack) && Address(program) && EndTail(ending) && Genuine(body) && Plain(body)
    ensures Continue(w, Printed(Calls(program, body, ending), depth), target, channel)
      == Walk(w.stack, w.own + Own(body, w.stack + [program], target, channel))
    decreases body, 2
  {
    var entered := Walk(w.stack + [program], w.own);
    var left := Walk(entered.stack, w.own + Own(body, entered.stack, target, channel));
    var first, last := InvokeLine(program, depth + 1), EndLine(program, ending);
    var middle := PrintedAll(body, depth + 1);
    InvokeLineReads(program, depth + 1);
    EndLineReads(program, ending);
    OneLine(w, first, target, channel);
    ForestWalked(entered, body, depth + 1, target, channel);
    WalkInTwo(w, [first], middle, target, channel);
    WalkInTwo(w, [first] + middle, [last], target, channel);
    OneLine(left, last, target, channel);
    assert (w.stack + [program])[..|w.stack|] == w.stack;
  }

  lemma {:induction false} ForestWalked(w: Walk, forest: Forest, depth: nat, target: Program, channel: Channel)
    requires Addresses(w.stack) && Genuine(forest) && Plain(forest)
    ensures Continue(w, PrintedAll(forest, depth), target, channel)
      == Walk(w.stack, w.own + Own(forest, w.stack, target, channel))
    decreases forest, 1
  {
    match forest
    case Nothing => assert w.own + [] == w.own;
    case Then(head, tail) =>
      GoodHead(head, tail);
      var first, rest := OwnOf(head, w.stack, target, channel), Own(tail, w.stack, target, channel);
      var mid := Walk(w.stack, w.own + first);
      ItemWalked(w, head, depth, target, channel);
      ForestWalked(mid, tail, depth, target, channel);
      TwoPartsWalked(w, Printed(head, depth), PrintedAll(tail, depth), mid, first, rest, target, channel);
  }

  lemma {:induction false} TwoPartsWalked(w: Walk, a: seq<string>, b: seq<string>, mid: Walk, first: seq<string>, rest: seq<string>,
                       target: Program, channel: Channel)
    requires mid == Walk(w.stack, w.own + first) && Continue(w, a, target, channel) == mid
    requires Continue(mid, b, target, channel) == Walk(w.stack, mid.own + rest)
    ensures Continue(w, a + b, target, channel) == Walk(w.stack, w.own + (first + rest))
  {
    WalkInTwo(w, a, b, target, channel);
    assert (w.own + first) + rest == w.own + (first + rest);
  }

  /**
   * Attribution inverts printing: of the log of every forest of nested invocations, self-calls included, in which no
   * message looks like an invocation, the walk returns the target's own lines in order, no others, and ends with
   * nothing running.
   */
  lemma AttributionInvertsPrinting(forest: Forest, target: Program, channel: Channel)
    requires Genuine(forest) && Plain(forest)
    ensures Walked(PrintedAll(forest, 0), target, channel) == Walk([], Own(forest, [], target, channel))
  {
    ForestWalked(Walk([], []), forest, 0, target, channel);
  }

  // ---- and only then ---------------------------------------------------------------------------------------------

  ghost predicate NoneShaped(own: seq<string>) {
    forall k | 0 <= k < |own| :: !InvokeShaped(own[k])
  }

  lemma StepAddsNoneShaped(w: Walk, line: string, target: Program, channel: Channel)
    requires NoneShaped(w.own)
    ensures NoneShaped(Step(w, line, target, channel).own)
  {
    var prefix := Prefix(channel);
    if StartsWith(line, prefix) {
      assert line == prefix + line[|prefix|..];
      MessageReads(line[|prefix|..], channel);
    }
  }

  /** No message that looks like an invocation is ever attributed: it was read as one. */
  lemma {:induction false} WalkAddsNoneShaped(w: Walk, lines: seq<string>, target: Program, channel: Channel)
    requires NoneShaped(w.own)
    ensures NoneShaped(Continue(w, lines, target, channel).own)
    decreases |lines|
  {
    if lines != [] {
      StepAddsNoneShaped(w, lines[0], target, channel);
      WalkAddsNoneShaped(Step(w, lines[0], target, channel), lines[1..], target, channel);
    }
  }

  /** Some program owns the message that looks like an invocation. */
  lemma {:induction false} ShapedIsOwned(forest: Forest, running: seq<Program>)
    returns (target: Program, channel: Channel, k: nat)
    requires !Plain(forest) && (running == [] ==> FromPrograms(forest))
    ensures var own := Own(forest, running, target, channel); k < |own| && InvokeShaped(own[k])
    decreases forest
  {
    var Then(head, tail) := forest;
    if !Plain(tail) {
      var j;
      target, channel, j := ShapedIsOwned(tail, running);
      k := |OwnOf(head, running, target, channel)| + j;
    } else if head.Calls? {
      target, channel, k := ShapedIsOwned(head.body, running + [head.program]);
    } else {
      target, channel, k := running[|running| - 1], if head.Logs? then LogLines else DataLines, 0;
    }
  }

  /** Every program gets exactly its own lines, on both channels, exactly when no message looks like an invocation. */
  lemma AttributionInvertsExactlyWhenPlain(forest: Forest)
    requires Genuine(forest) && FromPrograms(forest)
    ensures (forall target, channel ::
               Walked(PrintedAll(forest, 0), target, channel).own == Own(forest, [], target, channel)) <==> Plain(forest)
  {
    if Plain(forest) {
      forall target, channel
        ensures Walked(PrintedAll(forest, 0), target, channel).own == Own(forest, [], target, channel)
      {
        AttributionInvertsPrinting(forest, target, channel);
      }
    } else {
      var target, channel, k := ShapedIsOwned(forest, []);
      WalkAddsNoneShaped(Walk([], []), PrintedAll(forest, 0), target, channel);
      assert Walked(PrintedAll(forest, 0), target, channel).own != Own(forest, [], target, channel);
    }
  }
}
