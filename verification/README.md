# Verified models of five vendored libraries

The agent of this repository relies on vendored Go libraries: `go-yaml` reads and writes its
configuration, `snmpgo` walks the tables of devices, and `golang.org/x/net` brings an HTML
tokenizer, a packet filter and contexts. This project models the parts of them in which most of the
state and the branching lies, in Dafny, and proves what they are for. `Tokens.dfy` holds the tokens
that the YAML scanner passes to the parser, and `Option.dfy` optional values.

`dafny verify dfyconfig.toml` checks the whole project.

## What is proved

**YAML (`go-yaml`).** A text goes through a reader, a scanner, a parser and a tree builder; a
document goes back through an emitter. The grammar of events (`Events.dfy`) is where they meet: it is
given as a pushdown acceptor and as the flattenings of document trees, and the two are the same.

- `Reader.dfy`, `Utf8.dfy`: UTF-8 and UTF-16 in chunks of any size become the UTF-8 of exactly the
  decoded characters and one NUL, or exactly the problem of the first bad character (RFC 3629,
  section 4; RFC 2781, section 2.2). No index reaches the capacity of the buffer.
- `Text.dfy`: which bytes are a text, by the values that RFC 3629 and RFC 2781 allow, and what is wrong
  with the first bytes of the others.
- `Scanner.dfy`: the token queue with late insertions, the stack of simple keys and the stack of
  indentations. Every operation is fixed by a function on the bookkeeping; every state of every run
  keeps the invariants that place late tokens inside the queue and make the stack of indentations
  the nesting of the tokens.
- `Descent.dfy`, `Parser.dfy`: the pushdown machine with its two stacks computes, for every token
  sequence, what a recursive descent over the grammar defines: the same events, the same marks, and
  an error in exactly the same cases. Its events are a prefix of a well-formed stream.
- `Windows.dfy`, `Reading.dfy`: the events of a token sequence, each told from the tokens around it and
  the open productions alone, and that there is only one such reading.
- `Pairs.dfy`: where the parser departs from the grammar in its own comments, with the exact
  condition on the tokens for which it does not.
- `Builder.dfy`: on such a stream the recursive builder never panics and its tree flattens to
  exactly the events of the document.
- `Layout.dfy`, `Emitter.dfy`: the second pushdown machine, with its lookahead, accepts exactly the
  streams of the grammar, handles each event once and ends as it began. What it writes, with all
  indicators, indentation, tags and styles, is what a recursive printer of the whole stream writes.
- `Readback.dfy`: a reader that goes by indicators and columns finds in what was written the events
  again, in flow and block style, with simple and complex keys and sequences that are not indented,
  and the tags that were written resolve to those of the events.
- `Styles.dfy`: rules for everything that is written: styles, simple keys, brackets, directives, line
  breaks and columns, counted in the writes themselves.
- `Quoted.dfy`: the escapes, the places of folds and the reading of folded lines, in characters.
- `DoubleQuoted.dfy`: what the printer of double-quoted scalars writes is read back as the value.

**SNMP (`snmpgo`).** `Oid.dfy`, `VarBinds.dfy`, `Columns.dfy`, `Bulk.dfy`, `Overflow.dfy` and
`Walk.dfy`: `GetBulkWalk` ends against every agent whose replies use a finite set of OIDs. Against an
honest agent (section 4.2.3 of RFC 3416), which may cut its replies short, its result is a range query;
with one repetition, exactly those instances at the requested bases are in it besides that come in from
other columns in time. Its result says how the conversation went: which replies were values, and how
the last one ended it.

**HTML (`x/net/html`).** `HtmlLex.dfy` defines the tokens of a whole input; `Tokenizer.dfy` proves
that the tokenizer, which moves spans through a buffer that it compacts and replaces, finds exactly
them for every chunking, and loses no byte. `Tags.dfy` and `Markup.dfy` say what these tokens are, in
characters: reading a tag is the inverse of writing it, and comments, declarations, raw text and
scripts end where their text says. `Escape.dfy` proves the in-place decoder and newline
converter against functions on the original bytes, and the round trip through escaping;
`Entities.dfy` what every character reference stands for.
`NodeList.dfy` proves the doubly linked child lists against sequences.

**Packet filters (`x/net/bpf`).** `Bpf.dfy`: assembling and disassembling preserve the meaning of
every run, and runs of accepted programs are safe. `Words.dfy` and `Meaning.dfy`: what the
instructions compute, in numbers and bits, and their codes.

**Contexts (`x/net/context`, before Go 1.7).** `Context.dfy`: the invariant of the cancellation tree
over all programs of creations, cancel calls and timers. `Calls.dfy`: every context reports the error
of the first call that ends it or an ancestor.

In the contracts, a method of a class is tied to a function of its old state. Ghost parameters named
`want`, `g`, `budget`, `all` or `lists` carry such specifications into calls, and the ghost fields
`plan` and `goal` of the emitter all the events that will come and what is to be written for them.

## Where the code differs from its documentation

The models follow the code.

- The grammar at the head of parserc.go has `KEY flow_node? (VALUE flow_node?)?` in flow sequences.
  When the key is absent, the code drops the token after KEY, which is VALUE, "," or "]"
  (parserc.go:843-847). `[? : a]` and `[? , a]` are errors although the grammar has them, `[? : :]`
  and `[? , ,]` are taken although it does not, and `[?]` loses its end. `YamlPairs.PairsAgreeExactly`
  says for which two tokens after KEY the code and the grammar agree on the pair whatever comes after.
- It also has entries of block mappings that start with VALUE; the code refuses exactly these
  (`YamlPairs.EntriesAgreeExactly`); parserc.go:681-720.
- The emitter raises its "expected ..." errors only when the offending event is handled: an event
  that is not legal goes unnoticed while one before it is waited with (`YamlEmitter.IllegalMayWait`).
- scannerc.go:876-878 calls a required simple key that is not allowed impossible and panics.
  `YamlScanner.ShouldNotHappenHappens` gives a text that gets there, and
  `YamlScanner.Scanner.SaveSimpleKey` says exactly when it happens.
- The DOCUMENT-START event of a bare document is not marked implicit (parserc.go:227-234), although
  the event has a flag for it.
- Disassembling an absolute load at an offset beyond 0xffffefff gives an extension
  (`Bpf.AbsoluteLoads`, `Bpf.ExtensionOffsets`), and a shifted load right behind the packet panics
  (`Bpf.ShiftedLoadPanics`, `Bpf.PanicsExactly`).
- `GetBulkWalk` is said to return all subtrees (client.go:198-200). It never asks for an instance at
  a requested base, but keeps it if another column comes upon it in time (`Walk.AtBases`).
- Raw text is said to go up to the next end tag (token.go:327-328). A "<" takes the character behind
  it along unless that is "/", so `<</title>` is passed over: `HtmlMarkup.NextEndTag` has the exact
  condition and `HtmlMarkup.EndTagPassed` the text. Where the HTML standard goes on differently, the
  models follow the code too: in hidden script text, a "<" before anything but a letter or "/" ends the
  hiding (token.go:503-504), and the character behind "--!" does not count in a comment
  (token.go:627-639).
- A decimal reference of one figure without a semicolon is not decoded, and `&#x;` is, to U+FFFD
  (escape.go:106-109; `HtmlEntities.NumbersDecode`).
- `InsertBefore` does not look whether the old child is a child, or whether the new one is an
  ancestor (`HtmlNode.Misplaced`, `HtmlNode.Redirect`).

## Model

| member | source | states |
|---|---|---|
| `YamlEvents.StreamsAreFlattenedTrees` | src/github.com/go-yaml/yaml/parserc.go:9-40 | the event kinds that the pushdown acceptor takes from STREAM-START to STREAM-END are exactly the flattenings of lists of document trees, each holding one node, with an even number of children in every mapping |
| `YamlEvents.RunTree` | src/github.com/go-yaml/yaml/decode.go:105-183 | inside any open productions, the events of a node tree are legal and fill exactly one place of the enclosing production |
| `YamlEvents.SplitDocument` | src/github.com/go-yaml/yaml/decode.go:133-144 | the rest of a legal stream after a document start is one flattened node, a document end and a legal rest |
| `YamlDescent.ThenPushed` | src/github.com/go-yaml/yaml/parserc.go:359-573 | pushing a state means: what it waits for is completed before the rest of the stack; the pushdown stack is the continuation of the recursive descent |
| `YamlDescent.SingleThen` | src/github.com/go-yaml/yaml/parserc.go:367-378 | after a node of one event the parser goes on with what the state on top of the stack stands for, also when that is the end of the document |
| `YamlDescent.BlockItemsFirst` | src/github.com/go-yaml/yaml/parserc.go:586-626 | with any stack: a block sequence goes on with a node, an empty scalar at the end of the indicator, its end, or an error, by the next two tokens |
| `YamlDescent.IndentlessFirst` | src/github.com/go-yaml/yaml/parserc.go:631-663 | with any stack: an indentless sequence goes on with a node or an empty scalar, and ends without taking a token |
| `YamlDescent.BlockKeysFirst` | src/github.com/go-yaml/yaml/parserc.go:681-721 | with any stack: a block mapping goes on with a key node, an empty key, its end, or an error |
| `YamlDescent.BlockValueFirst` | src/github.com/go-yaml/yaml/parserc.go:733-756 | with any stack: a value node, or an empty value whose mark depends on whether there was an indicator |
| `YamlDescent.FlowItemFirst` | src/github.com/go-yaml/yaml/parserc.go:795-826 | with any stack: an item of a flow sequence is a node, a mapping of one pair, or the end of the sequence |
| `YamlDescent.PairKeyFirst` | src/github.com/go-yaml/yaml/parserc.go:833-848 | with any stack: the key of a single pair, or an empty key that takes the token after it along |
| `YamlDescent.PairValueFirst` | src/github.com/go-yaml/yaml/parserc.go:854-872 | with any stack: the value of a single pair, or an empty one |
| `YamlDescent.FlowPairFirst` | src/github.com/go-yaml/yaml/parserc.go:929-964 | with any stack: an entry of a flow mapping is a key node, an explicit key, or the end of the mapping |
| `YamlDescent.FlowValueFirst` | src/github.com/go-yaml/yaml/parserc.go:970-992 | with any stack: the value of a flow mapping entry, or an empty one |
| `YamlDescent.ContentThen` | src/github.com/go-yaml/yaml/parserc.go:452-573 | with any stack: the content of a node by its first token, with style, anchor, tag, implicit flags and both marks |
| `YamlPairs.PairsAgreeExactly` | src/github.com/go-yaml/yaml/parserc.go:833-848 | for every text up to the two tokens after KEY in a flow sequence: whatever comes after, the code and the grammar give the same kinds of events or both fail, if and only if no token is lost with an absent key or its loss does no harm |
| `YamlPairs.EndTaken` | src/github.com/go-yaml/yaml/parserc.go:833-848 | an absent key before "]" takes the end of the sequence along: the code and the grammar never agree |
| `YamlPairs.PairAtEnd` | src/github.com/go-yaml/yaml/parserc.go:833-848 | the same condition where the text ends right after KEY |
| `YamlPairs.EntriesAgreeExactly` | src/github.com/go-yaml/yaml/parserc.go:681-720 | the code and the grammar agree on an entry of a block mapping, whatever comes after, if and only if it does not start with VALUE |
| `YamlParser.Parser.ParseAll` | src/github.com/go-yaml/yaml/parserc.go:62-169 | for every token sequence: the events are exactly those of the recursive descent and the error is exactly its error; they are the one reading of the tokens that `Windows.dfy` defines from the tokens around each event, with its properties, style, marks and implicit flags; without a tag, a scalar is implicit exactly as its style says; a prefix of a well-formed stream, whole exactly if there is no error; at most six per token; the texts are those of the tokens taken, in order; both stacks end empty |
| `YamlReading.StreamTells` | src/github.com/go-yaml/yaml/parserc.go:62-992 | the events of the descent are the reading of the tokens: every event is right for the tokens at its place and the productions that are open there, and at an error no event is |
| `YamlReading.NodeTells` | src/github.com/go-yaml/yaml/parserc.go:359-573 | the same for a node behind any tokens that lead to it, in any production |
| `YamlWindows.OneReading` | src/github.com/go-yaml/yaml/parserc.go:62-992 | a token sequence has one reading: the events and where they end, or that they do not |
| `YamlWindows.OneWay` | src/github.com/go-yaml/yaml/parserc.go:93-169 | at one place, one event and one set of tokens for it is right |
| `YamlWindows.FlagsAre` | src/github.com/go-yaml/yaml/parserc.go:468-474 | in every reading, a scalar without a tag is implicit if and only if it is plain, and quoted implicit if and only if it is not |
| `YamlParser.Parser.Parse` | src/github.com/go-yaml/yaml/parserc.go:62-73 | nothing after the end or an error; otherwise one event, which is one step of the grammar and the first event of what the recursive descent has ahead |
| `YamlParser.Parser.StateMachine` | src/github.com/go-yaml/yaml/parserc.go:93-169 | every state delivers the first event of what is ahead, takes that step of the grammar, keeps `states` the open productions and `marks` the collections that pushed one, and makes progress |
| `YamlParser.Parser.ParseStreamStart` | src/github.com/go-yaml/yaml/parserc.go:174-191 | the start of the stream, or an error on any other token |
| `YamlParser.Parser.ParseDocumentStart` | src/github.com/go-yaml/yaml/parserc.go:198-276 | bare and explicit documents and the end of the stream; the directives in force are those read, with the two defaults |
| `YamlParser.Parser.ParseDocumentContent` | src/github.com/go-yaml/yaml/parserc.go:282-298 | a node or an empty scalar inside an explicit document |
| `YamlParser.Parser.ParseDocumentEnd` | src/github.com/go-yaml/yaml/parserc.go:305-331 | the end of a document, implicit exactly without an indicator; the directives are dropped |
| `YamlParser.Parser.ParseBlockNode` | src/github.com/go-yaml/yaml/parserc.go:112-113 | the node of a bare document |
| `YamlParser.Parser.ParseNode` | src/github.com/go-yaml/yaml/parserc.go:359-573 | a node with properties in either order, its tag resolved by the first directive for its handle; errors exactly for a missing token, an unknown handle or missing content |
| `YamlParser.Parser.ParseBlockSequenceEntry` | src/github.com/go-yaml/yaml/parserc.go:579-626 | entries of a block sequence; the mark is pushed with the first and popped with the end |
| `YamlParser.Parser.ParseIndentlessSequenceEntry` | src/github.com/go-yaml/yaml/parserc.go:631-663 | entries of a sequence that is not indented |
| `YamlParser.Parser.ParseBlockMappingKey` | src/github.com/go-yaml/yaml/parserc.go:675-721 | keys of a block mapping |
| `YamlParser.Parser.ParseBlockMappingValue` | src/github.com/go-yaml/yaml/parserc.go:733-756 | values of a block mapping |
| `YamlParser.Parser.ParseFlowSequenceEntry` | src/github.com/go-yaml/yaml/parserc.go:770-826 | entries of a flow sequence, separated by FLOW-ENTRY |
| `YamlParser.Parser.ParseFlowSequenceEntryMappingKey` | src/github.com/go-yaml/yaml/parserc.go:833-848 | the key of a pair in a flow sequence |
| `YamlParser.Parser.ParseFlowSequenceEntryMappingValue` | src/github.com/go-yaml/yaml/parserc.go:854-872 | the value of a pair in a flow sequence |
| `YamlParser.Parser.ParseFlowSequenceEntryMappingEnd` | src/github.com/go-yaml/yaml/parserc.go:878-890 | the end of a pair in a flow sequence |
| `YamlParser.Parser.ParseFlowMappingKey` | src/github.com/go-yaml/yaml/parserc.go:904-964 | keys of a flow mapping |
| `YamlParser.Parser.ParseFlowMappingValue` | src/github.com/go-yaml/yaml/parserc.go:970-992 | values of a flow mapping |
| `YamlParser.Parser.PopState` | src/github.com/go-yaml/yaml/parserc.go:368-369 | never underflows; the popped state stands for the productions that were on top |
| `YamlParser.Parser.PopMark` | src/github.com/go-yaml/yaml/parserc.go:607-609 | never underflows; the mark popped is that of the collection being closed |
| `YamlParser.Parser.ProcessDirectives` | src/github.com/go-yaml/yaml/parserc.go:1013-1072 | the directives before a document, read exactly as `DirectivesAt` defines: a second %YAML, another version than 1.1 and a repeated %TAG are errors |
| `YamlParser.Parser.AppendTagDirective` | src/github.com/go-yaml/yaml/parserc.go:1075-1095 | appended unless the handle is known; a known handle is an error exactly if duplicates are not allowed; handles stay distinct |
| `YamlBuilder.Builder.DocumentAt` | src/github.com/go-yaml/yaml/decode.go:133-144 | on any legal event sequence: no panic; the tree built flattens to exactly the events of this document and the next event is the one after it; it fails only if the stream is incomplete |
| `YamlBuilder.Builder.Parse` | src/github.com/go-yaml/yaml/decode.go:105-123 | no panic; a node that flattens to exactly its events, a document, or nothing at the end of the stream |
| `YamlBuilder.Builder.SequenceAt` | src/github.com/go-yaml/yaml/decode.go:163-172 | the children in order, up to the matching end; exactly the events of the sequence |
| `YamlBuilder.Builder.MappingAt` | src/github.com/go-yaml/yaml/decode.go:174-183 | an even number of children, up to the matching end; exactly the events of the mapping |
| `YamlBuilder.Builder.ScalarNodeAt` | src/github.com/go-yaml/yaml/decode.go:153-161 | the node holds value, tag, position and implicit flag of the event |
| `YamlBuilder.Builder.AliasNodeAt` | src/github.com/go-yaml/yaml/decode.go:146-151 | the node holds the name of the alias |
| `YamlBuilder.Builder.Anchor` | src/github.com/go-yaml/yaml/decode.go:99-103 | the anchors of the document are those of the events so far |
| `YamlBuilder.AnchorsAreLast` | src/github.com/go-yaml/yaml/decode.go:99-103 | an anchor is known exactly if an event of the document carried it, and denotes the last such node |
| `YamlBuilder.Builder.Skip` | src/github.com/go-yaml/yaml/decode.go:67-77 | fails exactly at the end of the events or past STREAM-END |
| `YamlBuilder.Builder.NewParser` | src/github.com/go-yaml/yaml/decode.go:40-58 | no panic on a legal stream; the builder stands before the first document |
| `YamlScanner.ScanAll` | src/github.com/go-yaml/yaml/scannerc.go:571-597 | for every lexeme sequence: the tokens delivered and the error are exactly those that `Scanning` defines (see `YamlLookahead.ScansAhead` and `YamlRefusals.ScansExactly` for what these are); without an error they are the tokens of the text in order, each late token directly before the token it announces, block starts strictly more indented, and as many ends as starts if the flow collections are closed |
| `YamlLookahead.ScansAhead` | src/github.com/go-yaml/yaml/scannerc.go:571-1336 | without an error, the tokens are those laid down in one pass over the text, in which it is known of each lexeme whether a ":" on its line, at most 1024 characters behind it, makes a key of it; with an error, a beginning of such tokens |
| `YamlLookahead.KeyLaid` | src/github.com/go-yaml/yaml/scannerc.go:1276-1286 | the ":" of a key adds exactly KEY, and BLOCK-MAPPING-START if the key opens a mapping, directly before the lexeme that is the key |
| `YamlLookahead.NotYetKey` | src/github.com/go-yaml/yaml/scannerc.go:842-913 | while a lexeme may become a key, no ":" has made one of it |
| `YamlRefusals.ScansExactly` | src/github.com/go-yaml/yaml/scannerc.go:571-1310 | there is an error if and only if some lexeme cannot be where it is or a lexeme that must be a key is given up or too far from its ":", and the error is that of the first such place |
| `YamlRefusals.FetchedJudged` | src/github.com/go-yaml/yaml/scannerc.go:665-837 | the same for one lexeme, in every state that the text before it leads to |
| `YamlScanner.Scanner.FetchMoreTokens` | src/github.com/go-yaml/yaml/scannerc.go:626-662 | terminates with no simple key left at the head of the queue; nothing delivered has changed; exactly the lexemes needed are fetched |
| `YamlScanner.Scanner.FetchNextToken` | src/github.com/go-yaml/yaml/scannerc.go:665-835 | one lexeme is fetched exactly as `FetchedNext` says, and every invariant of the bookkeeping is kept |
| `YamlScanner.Scanner.PeekToken` | src/github.com/go-yaml/yaml/parserc.go:46-51 | the head of the queue, which is the next token of the history |
| `YamlScanner.Scanner.SkipToken` | src/github.com/go-yaml/yaml/parserc.go:54-59 | delivers the head; STREAM-END comes last and nothing is left behind it |
| `YamlScanner.Scanner.InsertToken` | src/github.com/go-yaml/yaml/apic.go:8-25 | insertion into the sequence of undelivered tokens, through compaction and growth of the array |
| `YamlScanner.Scanner.Compact` | src/github.com/go-yaml/yaml/apic.go:11-18 | the queue moves to the front of a full array and is the same sequence |
| `YamlScanner.Scanner.MoveLast` | src/github.com/go-yaml/yaml/apic.go:19-24 | the appended token moves to its position and the tokens behind it move up by one |
| `YamlScanner.Scanner.StaleSimpleKeys` | src/github.com/go-yaml/yaml/scannerc.go:842-864 | keys of earlier lines or more than 1024 characters back are given up; an error exactly if one of them is required |
| `YamlScanner.Scanner.SaveSimpleKey` | src/github.com/go-yaml/yaml/scannerc.go:867-897 | the new key is number tokens_parsed plus queue length; the case that should not happen occurs exactly if a required key is not allowed |
| `YamlScanner.Scanner.RemoveSimpleKey` | src/github.com/go-yaml/yaml/scannerc.go:900-913 | an error exactly if the innermost key is possible and required |
| `YamlScanner.Scanner.RollIndent` | src/github.com/go-yaml/yaml/scannerc.go:937-961 | opens a block collection exactly if the column is larger, inserting its start at the key or at the end |
| `YamlScanner.Scanner.UnrollIndent` | src/github.com/go-yaml/yaml/scannerc.go:966-987 | closes exactly the collections indented more than the column and never pops an empty stack |
| `YamlScanner.Scanner.FetchStreamEnd` | src/github.com/go-yaml/yaml/scannerc.go:1016-1044 | forces a new line, closes every block collection, then the end of the stream |
| `YamlScanner.Scanner.FetchAtLineStart` | src/github.com/go-yaml/yaml/scannerc.go:1047-1102 | directives and document indicators close every block collection and the simple key |
| `YamlScanner.Scanner.FetchFlowStart` | src/github.com/go-yaml/yaml/scannerc.go:1105-1133 | saves a simple key, then enters a flow level without one |
| `YamlScanner.Scanner.FetchFlowEnd` | src/github.com/go-yaml/yaml/scannerc.go:1136-1165 | gives up the key and leaves the flow level, if there is one |
| `YamlScanner.Scanner.FetchFlowEntry` | src/github.com/go-yaml/yaml/scannerc.go:1168-1190 | gives up the key and allows the next one |
| `YamlScanner.Scanner.FetchBlockEntry` | src/github.com/go-yaml/yaml/scannerc.go:1193-1232 | opens the block sequence if needed; an error exactly where no key is allowed in the block context, or a required key is pending |
| `YamlScanner.Scanner.FetchKey` | src/github.com/go-yaml/yaml/scannerc.go:1235-1271 | the same for an explicit key |
| `YamlScanner.Scanner.FetchValue` | src/github.com/go-yaml/yaml/scannerc.go:1274-1336 | KEY, and BLOCK-MAPPING-START where the key opens a mapping, go directly before the token at which the simple key starts |
| `YamlScanner.Scanner.FetchBlockScalar` | src/github.com/go-yaml/yaml/scannerc.go:1377-1393 | no simple key, and one may follow |
| `YamlScanner.Scanner.FetchScanned` | src/github.com/go-yaml/yaml/scannerc.go:1339-1431 | anchors, aliases, tags and flow or plain scalars save a simple key and then forbid one |
| `YamlScanner.NestIncreases` | src/github.com/go-yaml/yaml/scannerc.go:937-987 | the columns of the open block collections increase strictly above -1 |
| `YamlScanner.InsertKey` | src/github.com/go-yaml/yaml/scannerc.go:1276-1286 | a late KEY keeps every number, mark and nesting, for it lands inside the queue before the token it announces |
| `YamlScanner.OpenBlock` | src/github.com/go-yaml/yaml/scannerc.go:937-961 | a late start of a block collection keeps the stack of indentations the nesting of the tokens |
| `YamlScanner.Balanced` | src/github.com/go-yaml/yaml/scannerc.go:1016-1044 | a stream that ends at flow level 0 has closed every block collection |
| `YamlScanner.EndIsLast` | src/github.com/go-yaml/yaml/scannerc.go:571-597 | the end of the stream is delivered when the text is used up and the queue holds nothing else |
| `YamlScanner.ShouldNotHappenHappens` | src/github.com/go-yaml/yaml/scannerc.go:867-885 | a required simple key need not be allowed: on a valid text, exactly the tokens up to there are delivered and then the panic that should not happen is reached |
| `DoubleQuoted.RoundTrip` | src/github.com/go-yaml/yaml/emitterc.go:1428-1547 | for every value, width, line break and unicode setting, and every indentation above 0 (the emitter writes no scalar with less than 2, `YamlLayout.ScalarsAreDeep`): scanning what was printed, from behind the opening quote, yields the value and stops behind the closing one |
| `DoubleQuoted.Output.WriteDoubleQuoted` | src/github.com/go-yaml/yaml/emitterc.go:1428-1547 | the characters written are those of `Print`, between quotes |
| `DoubleQuoted.Output.WriteCharacter` | src/github.com/go-yaml/yaml/emitterc.go:1436-1541 | one round of the printing loop, with escapes, folding and the guard after a fold |
| `DoubleQuoted.Output.WriteIndent` | src/github.com/go-yaml/yaml/emitterc.go:1200-1218 | a break if needed, then spaces up to the indentation |
| `DoubleQuoted.Output.WriteHex` | src/github.com/go-yaml/yaml/emitterc.go:1496-1513 | the code in the given number of hexadecimal digits |
| `DoubleQuoted.HexRoundTrip` | src/github.com/go-yaml/yaml/scannerc.go:2432-2439 | reading the digits of a code that fits gives the code |
| `DoubleQuoted.EscapeReads` | src/github.com/go-yaml/yaml/scannerc.go:2363-2467 | every escape that is written is read back as its character and as long as it is |
| `DoubleQuoted.FoldReads` | src/github.com/go-yaml/yaml/scannerc.go:2493-2538 | a fold at a single space is read back as one space |
| `DoubleQuoted.SkipIndent` | src/github.com/go-yaml/yaml/scannerc.go:2493-2500 | the spaces after a break are no part of the text |
| `DoubleQuoted.Scanner.ScanFlowScalar` | src/github.com/go-yaml/yaml/scannerc.go:2304-2557 | the scanner computes what `ScanText` defines, and fails exactly where that fails |
| `DoubleQuoted.Scanner.ReadEscapeHere` | src/github.com/go-yaml/yaml/scannerc.go:2363-2467 | an escape sequence, or the error for it |
| `DoubleQuoted.Scanner.ReadWhite` | src/github.com/go-yaml/yaml/scannerc.go:2493-2518 | blanks and breaks, kept apart as the source keeps them |
| `DoubleQuoted.SameClasses` | src/github.com/go-yaml/yaml/yamlprivateh.go:63-74 | the byte tests for printable characters and line breaks are the tests on code points |
| `QuotedText.EscapesRead` | src/github.com/go-yaml/yaml/scannerc.go:2363-2467 | what follows a backslash: one of eighteen letters with its character, or two, four or eight hexadecimal figures of a Unicode scalar value; every other text is the error for it |
| `QuotedText.CodeIs` | src/github.com/go-yaml/yaml/emitterc.go:1460-1513 | every character is written with its letter, or with the fewest of two, four and eight capital figures that spell it |
| `QuotedText.PrintsLaid` | src/github.com/go-yaml/yaml/emitterc.go:1428-1541 | exactly control characters, breaks, quotes, backslashes, byte order marks and what unicode does not allow are escaped, and a line is folded exactly at the first single inner space behind its width, to the indentation |
| `QuotedText.FoldsRead` | src/github.com/go-yaml/yaml/scannerc.go:2493-2538 | blanks and any number of lines between two characters of a scalar: blanks alone stay, one line feed is a space, of more the first is dropped, and separators stay |
| `QuotedText.EscapedBreakReads` | src/github.com/go-yaml/yaml/scannerc.go:2353-2361 | an escaped break is dropped with the blanks behind it, and the breaks after it stay |
| `QuotedText.IndicatorFails` | src/github.com/go-yaml/yaml/scannerc.go:2311-2332 | three dashes or dots are an error exactly at the start of a line before a space, a break or the end |
| `Utf8.Decodes8` | src/github.com/go-yaml/yaml/readerc.go:169-243 | an encoded character is decoded, whatever follows |
| `Utf8.Encodes8` | src/github.com/go-yaml/yaml/readerc.go:169-243 | what is decoded was the one encoding of its character: overlong forms and surrogates are refused |
| `Utf8.Decodes16` | src/github.com/go-yaml/yaml/readerc.go:245-327 | the same for UTF-16 in both byte orders, with surrogate pairs |
| `Utf8.Encodes16` | src/github.com/go-yaml/yaml/readerc.go:245-327 | what is decoded from UTF-16 was the encoding of its character |
| `Utf8.Decided` | src/github.com/go-yaml/yaml/readerc.go:141-327 | a decision, once made, is not changed by more bytes: the basis of chunk independence |
| `Utf8.WidthIsLength` | src/github.com/go-yaml/yaml/yamlprivateh.go:156-173 | the width of the first byte is the length of the encoding |
| `YamlReader.ReadAll` | src/github.com/go-yaml/yaml/readerc.go:91-394 | for every splitting into chunks and every request of one to eight characters: UTF-8 of exactly the decoded characters and one NUL, or exactly the problem and offset of the first bad character; whatever goes wrong, also if a read fails, what was delivered before is a beginning of that text |
| `YamlText.TextRead` | src/github.com/go-yaml/yaml/readerc.go:25-350 | bytes that spell permitted characters, with a mark or without one as UTF-8, mean these characters and no problem |
| `YamlText.InputMeans` | src/github.com/go-yaml/yaml/readerc.go:25-350 | every input without a problem spells its characters; every other one begins with the text that is delivered and goes on with bytes that are wrong for the reason and at the place that is told |
| `YamlText.StepRefuses` | src/github.com/go-yaml/yaml/readerc.go:148-350 | each reason by the values of the bytes: leading, missing and trailing bytes, overlong forms, surrogates in and out of pairs, and characters that are not permitted |
| `YamlText.NothingWrong` | src/github.com/go-yaml/yaml/readerc.go:148-350 | no such reason holds where a permitted character begins |
| `YamlReader.ExpectedText` | src/github.com/go-yaml/yaml/readerc.go:25-53 | a byte order mark and encoded allowed characters mean those characters |
| `YamlReader.DecodeOne` | src/github.com/go-yaml/yaml/readerc.go:148-350 | one character is decided by the bytes present |
| `YamlReader.SameMark` | src/github.com/go-yaml/yaml/readerc.go:25-53 | three bytes decide the encoding |
| `YamlReader.AllAllowed` | src/github.com/go-yaml/yaml/readerc.go:333-350 | every character delivered is one that YAML allows |
| `YamlReader.Reader.UpdateBuffer` | src/github.com/go-yaml/yaml/readerc.go:91-394 | at least the wanted number of characters, or the end; `unread` counts the characters of the buffer; no index reaches its capacity |
| `YamlReader.Reader.UpdateRawBuffer` | src/github.com/go-yaml/yaml/readerc.go:56-87 | keeps the bytes that have not been decoded, and reads more unless there are none |
| `YamlReader.Reader.DetermineEncoding` | src/github.com/go-yaml/yaml/readerc.go:25-53 | the encoding that the first bytes of the whole input mean |
| `YamlReader.Reader.DecodeUtf8` | src/github.com/go-yaml/yaml/readerc.go:150-243 | one decoding step on the raw buffer |
| `YamlReader.Reader.DecodeUtf16` | src/github.com/go-yaml/yaml/readerc.go:245-327 | one decoding step on the raw buffer, in either byte order |
| `YamlReader.Reader.PutBytes` | src/github.com/go-yaml/yaml/readerc.go:356-379 | the UTF-8 bytes of the character, and nothing else changes |
| `YamlReader.Reader.FillOnce` | src/github.com/go-yaml/yaml/readerc.go:129-391 | one round of the outer loop |
| `YamlReader.Reader.Skip` | src/github.com/go-yaml/yaml/scannerc.go:491-496 | moves past exactly one character |
| `YamlEmitter.EmitAll` | src/github.com/go-yaml/yaml/emitterc.go:113-133 | for every event sequence with valid data: an error is raised exactly for the first event that is not legal after those before it, once nothing up to it is waited with; on a whole stream every event is handled once, everything written is what the recursive printer writes for the stream and is read back as its events and keeps to the rules of `Styles.dfy`, every scalar is written with an indentation of at least 2, and states, indentations and flow level are back at their first values |
| `YamlStyles.StreamKeeps` | src/github.com/go-yaml/yaml/emitterc.go:272-843 | for every whole stream, in the writes alone: a scalar has the style that was asked for, or the first that is permitted by its analysis, by the brackets open before it and by whether it is a simple key; only short nodes on one line are simple keys; brackets, directives and document marks are those of the events; lines are broken and indented by the rules |
| `YamlStyles.ScalarKeeps` | src/github.com/go-yaml/yaml/emitterc.go:797-843 | the rules hold of the writes of a scalar at any depth, as a key or not |
| `YamlStyles.NodeKeeps` | src/github.com/go-yaml/yaml/emitterc.go:648-794 | the same of a node behind any writes that keep them |
| `YamlEmitter.Emitter.Emit` | src/github.com/go-yaml/yaml/emitterc.go:113-133 | events are handled first in, first out, as long as the lookahead allows; after each, what was written and what the recursive printer writes for the rest are what it writes in all |
| `YamlEmitter.Emitter.HandleFirst` | src/github.com/go-yaml/yaml/emitterc.go:120-131 | one event of the queue is handled, exactly if it is legal, and every invariant is kept |
| `YamlEmitter.Emitter.NeedMoreEvents` | src/github.com/go-yaml/yaml/emitterc.go:136-170 | waits exactly while the queue is too short and nothing in it is closed |
| `YamlEmitter.Emitter.StateMachine` | src/github.com/go-yaml/yaml/emitterc.go:211-269 | an "expected ..." error is raised exactly for an event that the grammar refuses; otherwise what is left to print is exactly what was left, without this event |
| `YamlEmitter.Emitter.EmitStreamStart` | src/github.com/go-yaml/yaml/emitterc.go:272-308 | indentation and width are brought within their limits |
| `YamlEmitter.Emitter.EmitDocumentStart` | src/github.com/go-yaml/yaml/emitterc.go:311-422 | starts a document, with its directives and the end of an open-ended one before it, or ends the stream |
| `YamlEmitter.Emitter.AddTagDirectives` | src/github.com/go-yaml/yaml/emitterc.go:319-337 | fails exactly on invalid or repeated directives; the default ones are added unless their handles are there |
| `YamlEmitter.Emitter.EmitDocumentContent` | src/github.com/go-yaml/yaml/emitterc.go:425-428 | the root node of a document |
| `YamlEmitter.Emitter.EmitDocumentEnd` | src/github.com/go-yaml/yaml/emitterc.go:431-453 | the end of a document, which forgets its tag directives |
| `YamlEmitter.Emitter.EmitFlowSequenceItem` | src/github.com/go-yaml/yaml/emitterc.go:456-501 | items of a flow sequence, with separators and line breaks; levels and indentation are restored at its end |
| `YamlEmitter.Emitter.EmitFlowMappingKey` | src/github.com/go-yaml/yaml/emitterc.go:504-555 | keys of a flow mapping, with an indicator unless they are simple |
| `YamlEmitter.Emitter.EmitFlowMappingValue` | src/github.com/go-yaml/yaml/emitterc.go:558-575 | values of a flow mapping |
| `YamlEmitter.Emitter.EmitBlockSequenceItem` | src/github.com/go-yaml/yaml/emitterc.go:578-599 | items of a block sequence, which is not indented in a mapping unless the line is |
| `YamlEmitter.Emitter.EmitBlockMappingKey` | src/github.com/go-yaml/yaml/emitterc.go:602-627 | keys of a block mapping, with an indicator unless they are simple |
| `YamlEmitter.Emitter.EmitBlockMappingValue` | src/github.com/go-yaml/yaml/emitterc.go:630-645 | values of a block mapping |
| `YamlEmitter.Emitter.EmitNode` | src/github.com/go-yaml/yaml/emitterc.go:648-669 | a node with its anchor and tag, or the start of the collection that it is; an empty collection never enters a block state |
| `YamlEmitter.Emitter.WantsFlow` | src/github.com/go-yaml/yaml/emitterc.go:707-737 | a collection is in flow style exactly if it must be, should be or is empty, and otherwise its first child is in the queue |
| `YamlEmitter.Emitter.SelectScalarStyle` | src/github.com/go-yaml/yaml/emitterc.go:797-843 | fails exactly with neither a tag nor an implicit flag; otherwise the style is the one asked for, or the first that the place and the text allow, and the tag written says what a reader would not find out |
| `YamlEmitter.Emitter.CheckSimpleKey` | src/github.com/go-yaml/yaml/emitterc.go:763-794 | a node is a simple key exactly if it is an alias, a scalar on one line or an empty collection, and at most 128 long |
| `YamlEmitter.Emitter.AnalyzeTag` | src/github.com/go-yaml/yaml/emitterc.go:966-980 | a tag is split by the first directive whose prefix it has, and what is written of it is never empty |
| `YamlEmitter.Emitter.Drained` | src/github.com/go-yaml/yaml/emitterc.go:113-133 | when the stream is complete, states, indentations and flow level are back at their first values, and nothing is left to print |
| `YamlLayout.ScalarsAreDeep` | src/github.com/go-yaml/yaml/emitterc.go:684-704 | for every event sequence, legal or not, and all settings: the indentation with which a scalar is written, at any depth and in any style, is at least 2 |
| `YamlReadback.ReadBack` | src/github.com/go-yaml/yaml/emitterc.go:272-759 | for every whole stream whose aliases have names, and every setting, pen and analysis of scalars: reading the writes that are printed gives the kinds of all events, their anchors and their values, and uses all writes up |
| `YamlReadback.NodeReads` | src/github.com/go-yaml/yaml/emitterc.go:648-759 | the same for a node at any depth, if what follows does not go on with it |
| `YamlReadback.BlockItemsRead` | src/github.com/go-yaml/yaml/emitterc.go:578-599 | the items of a block sequence are told from what follows by their column, also in a mapping of the same column |
| `YamlReadback.BlockPairsRead` | src/github.com/go-yaml/yaml/emitterc.go:602-645 | the same for the pairs of a block mapping, with simple and complex keys |
| `YamlReadback.FlowItemsRead` | src/github.com/go-yaml/yaml/emitterc.go:456-501 | the items of a flow sequence are read back, wherever lines are broken |
| `YamlReadback.FlowPairsRead` | src/github.com/go-yaml/yaml/emitterc.go:504-575 | the same for a flow mapping |
| `YamlReadback.NodeStarts` | src/github.com/go-yaml/yaml/emitterc.go:648-759 | a node starts with its anchor, its tag, its text or a bracket, or else it is in block style |
| `YamlReadback.DocumentsRead` | src/github.com/go-yaml/yaml/emitterc.go:311-453 | documents are read back one by one, the first one also without an indicator |
| `YamlReadback.TagResolves` | src/github.com/go-yaml/yaml/emitterc.go:966-980 | a tag as it is written resolves, by the directives that the parser reads, to the tag of the event |
| `YamlReadback.SameDefaults` | src/github.com/go-yaml/yaml/emitterc.go:331-337 | the emitter and the parser add the default directives in the same way, and keep all handles distinct |
| `YamlEmitter.CollectionStarted` | src/github.com/go-yaml/yaml/emitterc.go:707-737 | with any stack: after the start of a collection, the recursive printer has left to do what the state and the stack say |
| `YamlEmitter.FlowItemNext` | src/github.com/go-yaml/yaml/emitterc.go:485-500 | the same before an item of a flow sequence |
| `YamlEmitter.FlowKeyNext` | src/github.com/go-yaml/yaml/emitterc.go:531-554 | the same before a key of a flow mapping |
| `YamlEmitter.FlowClosed` | src/github.com/go-yaml/yaml/emitterc.go:466-484 | the same at the end of a flow collection |
| `YamlEmitter.BlockEntered` | src/github.com/go-yaml/yaml/emitterc.go:579-583 | the same at the start of a block collection |
| `YamlEmitter.BlockKeyNext` | src/github.com/go-yaml/yaml/emitterc.go:614-627 | the same before a key of a block mapping |
| `YamlEmitter.NodePlaced` | src/github.com/go-yaml/yaml/emitterc.go:425-669 | with any stack: after a node, the stack of states is where the grammar is |
| `YamlEmitter.Expected` | src/github.com/go-yaml/yaml/emitterc.go:456-645 | inside a document, the events that a state expects are exactly those of the grammar |
| `YamlEmitter.Outside` | src/github.com/go-yaml/yaml/emitterc.go:272-453 | the same outside documents |
| `YamlEmitter.NoneRefused` | src/github.com/go-yaml/yaml/emitterc.go:113-133 | while the head of the queue waits, no event was refused |
| `YamlEmitter.IllegalMayWait` | src/github.com/go-yaml/yaml/emitterc.go:136-170 | two events that are no prefix of a stream and raise no error |
| `YamlEmitter.NothingWaits` | src/github.com/go-yaml/yaml/emitterc.go:136-170 | a complete stream is never waited with |
| `YamlEmitter.NextIsKnown` | src/github.com/go-yaml/yaml/emitterc.go:745-760 | the start of a collection is handled only when the event after it is known |
| `YamlEmitter.LevelIsDepth` | src/github.com/go-yaml/yaml/emitterc.go:157-168 | the level that the lookahead counts is the number of open productions |
| `Walk.GetBulkWalk` | src/github.com/k-sone/snmpgo/client.go:201-267 | terminates against every agent whose replies use a finite set of OIDs; every reply but the last was an answer that is walked on over, and the result is a failure, an error reply or the bindings exactly as the last reply or the argument says; all bindings come from the replies; the result is sorted, without duplicates and below the bases; against an honest agent, with any number of repetitions of which each reply holds the first and any more, it holds every instance strictly below a base but perhaps the last one of the agent, and equals the range query if that lies below none and no base is itself an instance; with maxRepetitions 1 it holds every instance strictly below a base, equals the range query if no base is itself an instance, and otherwise holds exactly those instances at bases that other columns bring in while their own column is on its way |
| `WalkBulk.GoesOn` | src/github.com/k-sone/snmpgo/client.go:231-254 | with any number of repetitions: if no exception came for a column that is not complete, everything below its base up to the last identifier that came, from its own rows or from others, has been found |
| `WalkBulk.EndsThere` | src/github.com/k-sone/snmpgo/client.go:240-252 | if an exception came below the base, the reply holds all that was left but perhaps the last instance of the agent |
| `WalkBulk.ShortEnds` | src/github.com/k-sone/snmpgo/client.go:225-252 | if the reply is full and holds fewer below the base than repetitions, it holds all that was left |
| `WalkBulk.RoundBut` | src/github.com/k-sone/snmpgo/client.go:228-254 | a round keeps every column on its way, or ends it complete but for the last instance of the agent |
| `Walk.Round` | src/github.com/k-sone/snmpgo/client.go:231-254 | one reply: every column is completed, or drops, or learns a new OID |
| `Walk.WalkColumn` | src/github.com/k-sone/snmpgo/client.go:231-253 | one column: its share of the reply is kept, and the next request is its last OID |
| `Walk.Absorb` | src/github.com/k-sone/snmpgo/client.go:240-249 | exception values are not kept and end the column |
| `Walk.Sweep` | src/github.com/k-sone/snmpgo/client.go:256-262 | the finished columns are removed from bases and requests at the same places |
| `WalkColumns.FreshStep` | src/github.com/k-sone/snmpgo/client.go:231-254 | against an honest agent an unfinished column always finds a new instance, even among the overflow of other columns |
| `WalkColumns.Matched` | src/github.com/k-sone/snmpgo/client.go:231-233 | what another column brings below this base is never beyond the successor asked for |
| `WalkOverflow.NextRound` | src/github.com/k-sone/snmpgo/client.go:208-263 | what is known before every round: a column asks for its next instance as if nothing had come in at its base, or starts again because that instance has just come in when it was exhausted; the instances known at bases are those that exhausted columns brought in |
| `WalkOverflow.Advances` | src/github.com/k-sone/snmpgo/client.go:231-254 | a column that is not exhausted finds exactly its next instance, and takes along the instance at its base if and only if another column gets it |
| `WalkOverflow.Exhausts` | src/github.com/k-sone/snmpgo/client.go:231-254 | an exhausted column adds nothing but the instance at its base, if and only if another column gets it and its own share is no exception |
| `WalkOverflow.AgainIsLast` | src/github.com/k-sone/snmpgo/client.go:231-236 | a column that starts again finds nothing new and ends |
| `WalkOverflow.Matches` | src/github.com/k-sone/snmpgo/client.go:231-233 | what another column brings in below a base is the instance at the base, or the first one below it if there is none |
| `Walk.AtBases` | src/github.com/k-sone/snmpgo/client.go:201-267 | which instances at bases are in the result, but for one case: an exception and an instance for one identifier in the first reply, of which `Uniq` keeps either |
| `Walk.ExactResult` | src/github.com/k-sone/snmpgo/client.go:265-266 | a sorted result that holds the subtrees and nothing else is the range query |
| `Walk.NothingMissed` | src/github.com/k-sone/snmpgo/client.go:201-267 | an instance below any requested base is in the result |
| `Oids.UniqBase` | src/github.com/k-sone/snmpgo/variables.go:271-303 | of a sorted list: a prefix-free list that covers every OID of it |
| `Oids.Contains` | src/github.com/k-sone/snmpgo/variables.go:149-160 | holds exactly for prefixes |
| `Oids.Compare` | src/github.com/k-sone/snmpgo/variables.go:164-180 | the lexicographic order, as -1, 0 and 1 |
| `Oids.Contiguous` | src/github.com/k-sone/snmpgo/variables.go:149-180 | a subtree is contiguous in the order |
| `Oids.Apart` | src/github.com/k-sone/snmpgo/variables.go:149-180 | disjoint subtrees do not interleave |
| `Oids.Trichotomy` | src/github.com/k-sone/snmpgo/variables.go:164-180 | the order is total and irreflexive |
| `VarBinds.Sort` | src/github.com/k-sone/snmpgo/pdu.go:112-117 | a sorted permutation |
| `VarBinds.Uniq` | src/github.com/k-sone/snmpgo/pdu.go:119-142 | strictly sorted, with exactly the same OIDs |
| `VarBinds.MatchOid` | src/github.com/k-sone/snmpgo/pdu.go:91-98 | finds a binding exactly if there is one |
| `VarBinds.MatchBaseOids` | src/github.com/k-sone/snmpgo/pdu.go:101-110 | exactly the bindings at or below the prefix, in order |
| `HtmlTokenizer.Tokenize` | src/golang.org/x/net/html/token.go:950-1072 | for every chunking by the reader: the tokens, with the keys and values of start tags, are those of the whole input, each is what its characters spell (`HtmlMarkup.AllTold`), their raw bytes put together are the input, and there are at most one more of them than bytes |
| `HtmlMarkup.AllTold` | src/golang.org/x/net/html/token.go:314-1067 | every token of every text in characters: text up to the next markup; a start or end tag that is properly written, or none before the end; a comment up to the first ">" that closes it; the kinds of declarations; raw text; and the element whose text is raw after it |
| `HtmlMarkup.TagRoundTrip` | src/golang.org/x/net/html/token.go:778-947 | a start tag written from a name, spaces and any proper attributes, bare, quoted, empty or absent, is lexed to exactly its name and the spans of its keys and values |
| `HtmlTags.AttrsRead` | src/golang.org/x/net/html/token.go:823-947 | attributes that are properly written are read as their spans |
| `HtmlTags.AttrsWritten` | src/golang.org/x/net/html/token.go:823-947 | whatever is read as attributes up to ">" is properly written |
| `HtmlTags.SpansSpell` | src/golang.org/x/net/html/token.go:865-947 | no key holds a space, "/", "=" or ">"; a value stands behind the "=" that follows its key, between equal quotes that it does not hold, or without spaces and ">" |
| `HtmlMarkup.CommentIs` | src/golang.org/x/net/html/token.go:600-641 | a comment ends at the first ">" behind two dashes that count, or behind those and "!", and its data before them |
| `HtmlMarkup.NextEndTag` | src/golang.org/x/net/html/token.go:327-362 | raw text ends at the next end tag of its element if and only if an even number of "<" stands before that |
| `HtmlMarkup.EndTagPassed` | src/golang.org/x/net/html/token.go:337-351 | a text whose end tag is passed over |
| `HtmlMarkup.ScriptIs` | src/golang.org/x/net/html/token.go:393-596 | the sixteen states end a script where three kinds of hiding and the words of the text say: "<!--" hides script tags up to "-->", and a script tag in it the next end tag as well |
| `HtmlMarkup.RawAfterIs` | src/golang.org/x/net/html/token.go:786-807 | the raw text after a tag is that of the one of ten elements whose name it has in either case |
| `HtmlTokenizer.Tokenizer.Next` | src/golang.org/x/net/html/token.go:950-1067 | type, raw span, data span and mode of the next token are those that `Lex` defines on the whole input |
| `HtmlTokenizer.Tokenizer.ReadByte` | src/golang.org/x/net/html/token.go:234-287 | the next byte of the input, or an error exactly at its end; compaction and growth move every span with its text |
| `HtmlTokenizer.Tokenizer.ReadAtLeastOneByte` | src/golang.org/x/net/html/token.go:297-305 | a byte or an error, after a limited number of empty reads |
| `HtmlTokenizer.Tokenizer.MakeRoom` | src/golang.org/x/net/html/token.go:242-269 | room for a byte, with the same tokens and spans as before |
| `HtmlTokenizer.Tokenizer.ReadRawText` | src/golang.org/x/net/html/token.go:329-362 | raw text up to its own end tag |
| `HtmlTokenizer.Tokenizer.ReadRawEndTag` | src/golang.org/x/net/html/token.go:366-390 | an end tag is found or everything read for it is given back, but for the end of the input |
| `HtmlTokenizer.Tokenizer.ReadScript` | src/golang.org/x/net/html/token.go:393-596 | the script states, with escaped and doubly escaped text |
| `HtmlTokenizer.Tokenizer.ReadComment` | src/golang.org/x/net/html/token.go:600-641 | the span of a comment, for all ways to end it |
| `HtmlTokenizer.Tokenizer.ReadMarkupDeclaration` | src/golang.org/x/net/html/token.go:663-689 | comment, doctype, CDATA section or bogus comment |
| `HtmlTokenizer.Tokenizer.ReadDoctype` | src/golang.org/x/net/html/token.go:692-713 | a doctype, or back to where it started |
| `HtmlTokenizer.Tokenizer.ReadCdata` | src/golang.org/x/net/html/token.go:717-752 | a CDATA section, or back to where it started |
| `HtmlTokenizer.Tokenizer.ReadStartTag` | src/golang.org/x/net/html/token.go:778-812 | the tag, and the element whose text is raw after it |
| `HtmlTokenizer.Tokenizer.ReadTag` | src/golang.org/x/net/html/token.go:816-841 | the name and the attributes of a tag |
| `HtmlTokenizer.Tokenizer.ReadTagAttrVal` | src/golang.org/x/net/html/token.go:888-947 | a quoted, unquoted or absent value |
| `HtmlTokenizer.Tokenizer.DataBytes` | src/golang.org/x/net/html/token.go:1113-1117 | the data span denotes the same text of the input, wherever the buffer has moved |
| `HtmlTokenizer.Tokenizer.Raw` | src/golang.org/x/net/html/token.go:1070-1072 | the raw span denotes the text of the input that the token covers |
| `HtmlLex.Lossless` | src/golang.org/x/net/html/token.go:950-1072 | the pieces of any input, from any place and mode, put together are the input |
| `HtmlLex.Pieces` | src/golang.org/x/net/html/token.go:950-1067 | the error token comes within one more than the bytes that are left |
| `HtmlLex.RawTextEnds` | src/golang.org/x/net/html/token.go:329-390 | raw text ends at the end of the input or at an end tag of its element |
| `HtmlLex.ScriptEnds` | src/golang.org/x/net/html/token.go:393-596 | a script ends at the end of the input or at a script end tag |
| `HtmlLex.TextHoldsNoMarkup` | src/golang.org/x/net/html/token.go:986-1026 | no markup starts inside a text token |
| `HtmlLex.AttrsInside` | src/golang.org/x/net/html/token.go:816-947 | the attribute spans are in order and inside the tag |
| `HtmlEscape.Unescape` | src/golang.org/x/net/html/escape.go:167-184 | in place: the result is the left to right decoding of the original bytes, given that no entity is longer decoded than written |
| `HtmlEntities.CodePointsDecode` | src/golang.org/x/net/html/escape.go:70-120 | a code point other than 0 and 0x80 to 0x9F, written in decimal or hexadecimal figures, is decoded to its UTF-8 form, and the rest of the text is decoded behind it |
| `HtmlEntities.NumbersDecode` | src/golang.org/x/net/html/escape.go:70-120 | every numeric reference: the character of its number in 32 bits, that of Windows 1252 from 0x80 to 0x9F and U+FFFD for what is none; references of three bytes or less stay |
| `HtmlEntities.NamesDecode` | src/golang.org/x/net/html/escape.go:122-163 | every named reference: the whole name first, then outside of attributes the longest entity of two to six bytes that it begins with; before "=" in attributes and otherwise the text stays |
| `HtmlEntities.EscapedText` | src/golang.org/x/net/html/escape.go:194-231 | no character that could be taken for markup is left in escaped text but "&", and other texts are not changed |
| `HtmlEntities.EscapesEach` | src/golang.org/x/net/html/escape.go:200-228 | every character is escaped on its own, by the table |
| `HtmlEscape.UnescapeEntity` | src/golang.org/x/net/html/escape.go:57-164 | one entity: what is written never passes what is read, and no unread byte is touched |
| `HtmlEscape.EntityFits` | src/golang.org/x/net/html/escape.go:57-164 | the text of an entity is no longer than the entity |
| `HtmlEscape.NeverLonger` | src/golang.org/x/net/html/escape.go:167-184 | decoding makes no text longer |
| `HtmlEscape.ConvertNewlines` | src/golang.org/x/net/html/token.go:1076-1104 | in place: CR LF and CR become LF, and nothing else changes |
| `HtmlEscape.NewlinesKeep` | src/golang.org/x/net/html/token.go:1076-1104 | exactly the texts without CR are left alone |
| `HtmlEscape.Escape` | src/golang.org/x/net/html/escape.go:198-231 | what is written is the escaped text, or a prefix of it if the writer fails |
| `HtmlEscape.RoundTrip` | src/golang.org/x/net/html/escape.go:167-231 | for every text, in text and attribute mode, with and without newline conversion: decoding the escaped text gives the text |
| `HtmlEscape.EscapedHasNoCr` | src/golang.org/x/net/html/escape.go:194-231 | escaped text holds no CR, so newline conversion does not change it |
| `HtmlNode.Node.InsertBefore` | src/golang.org/x/net/html/node.go:53-76 | fails exactly for an attached node; before a child or at the end it is insertion into the sequence of children; the nodes stay a forest exactly if the parent is not the new child or below it |
| `HtmlNode.Node.AppendChild` | src/golang.org/x/net/html/node.go:81-95 | the same at the end |
| `HtmlNode.Node.RemoveChild` | src/golang.org/x/net/html/node.go:100-119 | fails exactly for a node that is not a child; otherwise removal from the sequence, and the child has no parent |
| `HtmlNode.ReparentChildren` | src/golang.org/x/net/html/node.go:122-131 | for different nodes: terminates with the children of one behind those of the other; the nodes stay a forest exactly if the target is not below the source |
| `HtmlNode.ListsFixPointers` | src/golang.org/x/net/html/node.go:37-46 | the sequences of children fix all five pointers of every node |
| `HtmlNode.InsertLinks` | src/golang.org/x/net/html/node.go:53-76 | the pointer updates of an insertion keep all lists, for every place |
| `HtmlNode.RemoveLinks` | src/golang.org/x/net/html/node.go:100-119 | the pointer updates of a removal keep all lists |
| `HtmlNode.Misplaced` | src/golang.org/x/net/html/node.go:47-76 | an insertion before a node that is not a child leaves pointers that spell no lists at all |
| `HtmlNode.Redirect` | src/golang.org/x/net/html/node.go:53-131 | when nodes get a new parent, the forest stays one exactly if the way up from that parent does not meet them |
| `Bpf.MeaningPreserved` | src/golang.org/x/net/bpf/vm.go:78-140 | for every accepted program without raw instructions and without too large absolute offsets: the program that assembling and disassembling gives is accepted and has the same result on every packet |
| `Bpf.ThereAndBack` | src/golang.org/x/net/bpf/instructions.go:33-188 | decoding an assembled plain instruction gives it back, conditional jumps in their normal form |
| `BpfMeaning.CanonicalBack` | src/golang.org/x/net/bpf/instructions.go:33-188 | every raw instruction with one of the known codes and no operand that is not used comes back from disassembling and assembling |
| `BpfMeaning.AssemblesCanonical` | src/golang.org/x/net/bpf/instructions.go:192-431 | what plain instructions are assembled to is such an instruction |
| `BpfMeaning.LoadCodes` | src/golang.org/x/net/bpf/testdata/all_instructions.bpf:1 | the codes of loads and stores, and the offsets that mean extensions |
| `BpfMeaning.JumpCodes` | src/golang.org/x/net/bpf/testdata/all_instructions.bpf:1 | the codes of the conditional jumps, with the skips of the negated ones changed |
| `Bpf.AbsoluteLoads` | src/golang.org/x/net/bpf/instructions.go:223-232 | an absolute load comes back exactly up to the last offset that is not an extension |
| `Bpf.ExtensionOffsets` | src/golang.org/x/net/bpf/instructions.go:59-66 | beyond it the result changes: a program and a packet |
| `Bpf.SameRuns` | src/golang.org/x/net/bpf/instructions.go:354-392 | flipped conditional jumps with swapped skips run the same, from every place and machine |
| `Bpf.RunsAreSafe` | src/golang.org/x/net/bpf/vm.go:18-140 | a run of an accepted program returns, meets an instruction the machine does not know, or panics at a shifted load right behind the packet; it never falls off the end, divides by zero or leaves scratch or packet |
| `Bpf.PanicsExactly` | src/golang.org/x/net/bpf/vm_instructions.go:122-131 | it panics exactly if it comes to such a load |
| `Bpf.ShiftedLoadPanics` | src/golang.org/x/net/bpf/vm_instructions.go:122-135 | for every packet there is an accepted program that does |
| `Bpf.RunsForward` | src/golang.org/x/net/bpf/vm.go:78-140 | the program counter only grows, so a run takes at most one step per instruction |
| `Bpf.Run` | src/golang.org/x/net/bpf/vm.go:78-140 | the loop computes what `Execute` defines |
| `BpfMeaning.AluMeans` | src/golang.org/x/net/bpf/vm_instructions.go:12-58 | every operator, by its code: sums, differences and products that wrap around, quotients and remainders, the logical operators and shifts bit by bit; no result exactly for a division by zero |
| `BpfMeaning.OneResult` | src/golang.org/x/net/bpf/vm_instructions.go:29-58 | there is only one number of which that holds |
| `BpfMeaning.HoldsMeans` | src/golang.org/x/net/bpf/vm_instructions.go:60-89 | the comparisons, and whether two words have a bit in common |
| `BpfMeaning.LoadMeans` | src/golang.org/x/net/bpf/vm_instructions.go:137-156 | the number that the bytes spell, the first one weighing most; none exactly outside of the packet |
| `BpfMeaning.Operators` | src/golang.org/x/net/bpf/vm.go:99-107 | the programs that apply an operator to two constants return its result, or 0 for a division by zero by X |
| `BpfMeaning.Registers` | src/golang.org/x/net/bpf/vm.go:78-140 | a value comes back from the other register and from its own scratch slot, and from no other |
| `BpfMeaning.Loads` | src/golang.org/x/net/bpf/vm.go:108-140 | the programs that load return the bytes at the offset, or at X and the offset, and 0 outside of the packet |
| `BpfMeaning.HeaderLength` | src/golang.org/x/net/bpf/vm_instructions.go:122-131 | four times the last four bits of a byte; 0 beyond the packet, and a panic directly behind it |
| `BpfMeaning.Jumps` | src/golang.org/x/net/bpf/vm_instructions.go:60-89 | a jump skips exactly as many instructions as it says, for the side that holds |
| `Bpf.NewVM` | src/golang.org/x/net/bpf/vm.go:18-63 | accepts exactly the programs that `Accepted` describes |
| `Bpf.AssembleAll` | src/golang.org/x/net/bpf/asm.go:14-26 | every instruction in its place, or nothing if one cannot be assembled |
| `Bpf.DisassembleAll` | src/golang.org/x/net/bpf/asm.go:31-41 | every instruction in its place, and whether all were decoded |
| `ContextTree.RunProgram` | src/golang.org/x/net/context/pre_go17.go:64-289 | for every program of creations, cancel calls and timers: after every call, the contexts are those that the calls say, and each reports the error of the first call that ends it or an ancestor (`ContextCalls.FirstEnds`); every state is consistent, every call has exactly its effect, and no later state takes back or changes an error |
| `ContextTree.Knows` | src/golang.org/x/net/context/pre_go17.go:64-289 | this stays so over every call: cancel calls, timers that fire, deadlines that have passed, and new contexts below live and ended ones |
| `ContextCalls.FirstEnds` | src/golang.org/x/net/context/pre_go17.go:58-66 | the error that a context is said to report is that of the first cancel call or deadline, of those in the calls, at it or at an ancestor, and none exactly if there was none |
| `ContextTree.DropsLater` | src/golang.org/x/net/context/pre_go17.go:204-208 | a deadline is dropped exactly if there is an earlier one at the parent or above it |
| `ContextTree.NoLiveUnderCanceled` | src/golang.org/x/net/context/pre_go17.go:79-103 | in a consistent state no live context has a canceled ancestor |
| `ContextTree.NoLaterDeadline` | src/golang.org/x/net/context/pre_go17.go:204-232 | in a consistent state no deadline is later than that of an ancestor |
| `ContextTree.CancelKeeps` | src/golang.org/x/net/context/pre_go17.go:172-193 | canceling keeps the tree consistent: live children registered, each done channel closed once |
| `ContextTree.JoinKeeps` | src/golang.org/x/net/context/pre_go17.go:64-103 | a new context keeps the tree consistent, registered with a live ancestor or canceled with the error of a dead one |
| `ContextTree.Context.constructor` | src/golang.org/x/net/context/pre_go17.go:71-76 | a new context is live, without children |
| `ContextTree.CancelBelow` | src/golang.org/x/net/context/pre_go17.go:172-189 | the recursive cancel terminates on the tree and cancels exactly what is live below, with this error |
| `ContextTree.Cancel` | src/golang.org/x/net/context/pre_go17.go:172-193 | the first call cancels and unregisters; later calls change nothing |
| `ContextTree.PropagateCancel` | src/golang.org/x/net/context/pre_go17.go:79-103 | registers with the nearest cancelable ancestor, or takes over its error |
| `ContextTree.ParentCancelCtx` | src/golang.org/x/net/context/pre_go17.go:109-122 | the nearest ancestor that can be canceled, through value contexts |
| `ContextTree.RemoveChild` | src/golang.org/x/net/context/pre_go17.go:125-135 | takes the context out of its ancestor and changes nothing else |
| `ContextTree.WithCancel` | src/golang.org/x/net/context/pre_go17.go:64-68 | a new cancelable context, joined to the tree |
| `ContextTree.WithDeadline` | src/golang.org/x/net/context/pre_go17.go:204-232 | the earlier of the deadlines; already canceled if it has passed; the timer runs exactly if the context is live |
| `ContextTree.WithValue` | src/golang.org/x/net/context/pre_go17.go:280-282 | a new context that is neither registered nor canceled |

## Left out

- YamlParser.Parser.ParseAll: the tokens are values; the scanner is a sequence of them, and running out of tokens is a scanner error. The texts of error messages and their context marks are not part of the contract.
- YamlScanner.ScanAll: lexemes with marks stand for characters. The functions that read directives, anchors, tags and plain, single-quoted and block scalars are not modelled; a lexeme says whether reading it fails. Lookahead into the buffer, and reading behind the final NUL, are left out.
- YamlReader.ReadAll: requests of one to eight characters, as the scanner makes them. If a read fails, how much was delivered before, and whether a bad character before it is reported instead, depends on the chunks and is not fixed.
- DoubleQuoted.RoundTrip: the value is a sequence of code points, so byte strings that are not UTF-8 are left out; the scanner model is given the whole text at once.
- YamlPairs.PairsAgreeExactly: the grammar is followed at the pair that starts with KEY; nested and later pairs are read as the code reads them, for the lemma holds at each of them anew.
- YamlPairs.EntriesAgreeExactly: the grammar is followed at the one entry; nested and later entries are read as the code reads them.
- YamlBuilder.Builder.DocumentAt: nodes are values, so an anchor denotes the number of an event and not a pointer.
- YamlEmitter.EmitAll: what is written is a log of the calls that write, with their arguments. How these move the pen, and the analysis of the text of a scalar, are arbitrary functions; the characters of a scalar are those of `DoubleQuoted` for that style. Writing is assumed not to fail and the output encoding to be UTF-8, because the writer of UTF-16 uses one byte order for both.
- Walk.GetBulkWalk: nonRepeaters is 0, as the application calls it. With more than one repetition, the last instance of the agent may be named again with an exception in the same reply, and which of the two `Uniq` keeps depends on how equal elements are sorted, which `sort.Sort` leaves open; which instances at bases come in is stated for maxRepetitions 1. A reply without the first row of a column makes that column look finished. The caller's slice, which the original overwrites, is a value.
- VarBinds.Sort: which of several bindings with the same OID comes first is not fixed, as in the original.
- HtmlTokenizer.Tokenize: maxBuf is 0. `Text`, `TagName` and `TagAttr` are left out but for the bytes that they read, before case, newlines and entities are converted.
- HtmlTokenizer.Tokenizer.ReadByte: maxBuf is 0, as every caller in the repository leaves it, so the buffer is never too long.
- HtmlEscape.Unescape: the entity tables are arbitrary tables for which no entity is longer decoded than written, which the original asserts of its own. The round trip assumes of them only `amp;`, `lt;` and `gt;`.
- HtmlNode.ReparentChildren: for equal nodes the loop of the original does not end.
- HtmlNode.Node.InsertBefore: the type, the data and the attributes of nodes, and the stack of nodes, which would only add easy members.
- Bpf.MeaningPreserved: raw instructions are excluded, for the machine does not run them, and so are absolute loads beyond 0xffffefff, which come back as something else (`Bpf.AbsoluteLoads`).
- ContextTree.RunProgram: every operation is one step under its locks; the interleaving of goroutines is left out. Parents are contexts of the package itself, so the goroutine that watches a foreign parent is left out, and so are values.
- ContextTree.PropagateCancel: canceling the new child is written out, since nothing is registered with it yet.
- The decoding of YAML nodes into Go values and the encoding of Go values, which go through reflection.
- The construction of HTML trees, with its insertion modes and the adoption agency algorithm.
- SNMP messages, their encoding and cryptography, and the pool of sessions, whose slots are not owned exclusively.
- The HTTP handlers, the configuration and the daemon of the agent.
