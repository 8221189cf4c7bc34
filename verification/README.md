# A model of the Matter node: TLV, messages, PASE, reads and the grammar runtime

The repository is a Matter (CHIP) controller in TypeScript and JavaScript. This project models its five hardest parts in
Dafny and proves what they are for. Code that computes is modelled by functions; code that changes fields, arrays or
tables by classes and methods, each proved against a function, about which the theorems are then stated.

- **TLV** (Appendix A of the Matter Core Specification). `TlvWriter` prints recursively; `TlvReader` parses with an explicit
  stack of aliased arrays. The reader is proved equal to a recursive-descent reading of *every* byte string, and decoding
  is proved to undo encoding *exactly* on the forests whose strings are ASCII, whose strings and buffers are shorter than
  2^32 and whose fully qualified tags fit in 32 bits; and encoding to undo decoding on every canonical byte string.
- **The LALR runtime** of `tools/schema/matter_grammar.js`: the shift/reduce driver, sound, complete and ending; the value
  stack whose child filter reuses its argument's array, under every run of the driver; the tree transformers, the lexer
  and the indenter. Table, scanner and callbacks are abstract.
- **PASE** (section 3.10 of the Matter Core Specification): one party as a state machine with suspended handlers and
  timers, and two honest parties over a channel that may lose, delay, reorder and repeat, also when all they see is
  the bytes that the other's session framed and their own node's tables route to them, among other traffic. The
  cryptography is abstract.
- **Messages, sessions and exchanges**: headers built by insertion in place, AEAD and header obfuscation, nonces, routing.
- **AsyncQueue** and the **read request** of the interaction model, whose report is streamed TLV.

## Findings

Where the code does not do what it seems to promise, the exact condition is proved:

- A string is written with its length in UTF-16 units, so only ASCII strings survive (`TlvTheorems.DecodeEncodeIffFaithful`;
  `TlvTheorems.NonAsciiStringIsLost` gives U+00E9). What is read of the others is cut short, and a sequence cut in two is
  read as U+FFFD: the string itself comes back only if it is ASCII and then U+FFFD (`Tlv.CutComesBackIff`), and then what
  follows it is misread (`TlvTheorems.UnfaithfulMisreads`). A fully qualified tag beyond 32 bits comes back anonymous, and
  a string or buffer of 2^32 bytes or more is misread.
- `Transformer_NonRecursive` pops as many values as a node had children, also when callbacks discarded some. It makes the
  recursive transformer's calls, of trees and tokens, exactly when nothing else is within reach then
  (`Transformer.NonRecursiveAgreesIff`; `Transformer.NonRecursiveLosesItsPlace` gives a tree). Where the root's own
  callback discards, it leaves an empty stack and returns undefined, and not Discard.
- PASE session ids can fail to be crossed. `onPbkdfParamResponse` has no state check and resumes after its awaits with
  whatever is stored then; if the client times out and starts again meanwhile, both sides make a session with the same
  secret but different ids (`PaseHandshake.OvertakenIdsDiffer`). The secret and the hashed messages agree in every run.
  Where no two requests and no two responses carry the same id, the ids are crossed if and only if both parties had the
  same request and response stored when they made their sessions; and, given that one of them made its session from the
  messages it had hashed, which it can tell by computing its context again, if and only if the other did so, too
  (`PaseAgreement.Agreement`). They always are in runs in which no suspended handler is overtaken
  (`PaseAgreement.OrderlyAgreement`).
- A PASE server can make a session without having sent a Pake2, since `onPbkdfParamResponse` does not check the role
  either. A party has made one session for every Pake3 and every status report it has sent, and sent at most as many
  reports as Pake2 (`Pase.PartyInvariant`). If it starts nothing and receives no parameter response, it makes no more
  sessions than it sends Pake2 (`Pase.ServingPartyBound`), and neither condition can be dropped: a request, an unasked
  response and a Pake2 suffice (`PaseHandshake.UnaskedResponseMakesSession`), and so does a start in place of the request
  (`PaseHandshake.StartMakesSession`).
- A message that an initiator has sent on an unsecured session cannot always be sent again: the direction is read before
  the flags say that a node id has gone in, and so from the id's first byte. It goes out as before if and only if the
  node id is odd (`Delivery.ResentIffOdd`; `Delivery.EvenIdIsNotSentAgain` gives the id 2).
- Of two exchanges started with one node, a reply to the second can be lost: sessions are searched by address, and one
  without a node id, which has not sent yet, answers to any. A reply finds its exchange if and only if no earlier session
  with its sender goes by the same node id or by none (`Routing.ReplyArrivesIff`; `Routing.SilentSessionTakesReply` gives
  two exchanges).
- The lexer's line number is right exactly when every match that holds a newline has a type flagged for newlines
  (`Lexers.LexingTiles`). Lexing ends if and only if the scanner gives no empty match at a place that is reached
  (`Lexers.LexingEndsIff`), and so on every text if no terminal is of zero width (`Lexers.NonEmptyEnds`). The lexer's
  constructor rejects terminals of zero width (tools/schema/matter_grammar.js:1901), but not under `skip_validation`,
  which is set when a parser is loaded (tools/schema/matter_grammar.js:3647).
- A read request is logged as JSON before it is answered, which throws at a bigint: a request for a path is understood if
  and only if all its numbers fit in 32 bits, so never one with a wider node id (`ReportRoundTrip.UnderstoodIffNarrow`).
- A rule's tree has nulls for its empty optional items if and only if it has none: `maybe_create_child_filter` asks for the
  length of a number, or of a boolean, so that the filter with placeholders is never selected
  (`ChildFilters.PlaceholdersAreLost`). With that filter each would be in its place (`ChildFilters.PlaceholdersAlign`).
- `StatusReport.sendStatus` writes its three numbers over each other, so that the general code is never seen
  (`PaseMessages.StatusKeepsCodeOnly`).
- A byte string in place of the paths of a read request asks for every endpoint, once for every byte
  (`ReportRoundTrip.BytesAskForEverything`).

Also modelled as the code has it, where comments or names say otherwise: the PASE context starts with "CHIP PAKE V1
Commissioning"; the request template reads `hasPbkdfParameters`, which its caller passes under another name, so the flag
is always false; the client never checks the server's confirmation.

## Abstractions

Strings are kept as their UTF-8 bytes, which reading makes well-formed as `toString("utf-8")` does, with U+FFFD for what is
not (`Tlv.Replaced`). A thrown exception is `Err(Thrown)` or an outcome; `Err(OutsideModel)` marks
inputs whose JavaScript coercion is not modelled, about which nothing is claimed. AEAD, keystream, hash, SPAKE2+ and MAC
are function parameters; what a theorem needs of them is its precondition: for the PASE theorems, that both ends of
SPAKE2+ derive the same from the same inputs, and that the hashes, confirmations and confirmation keys of the run do not
collide; for `MsgCodec.HeaderIsAuthenticated`, that a ciphertext and tag opens under one nonce and header only. Random
numbers, promises and timers are numbers given from outside.

## Model

| member | source | states |
|---|---|---|
| TlvGrammar.FinishOpen | src/tlv/TlvReader.ts:84-96 | Opening a container pushes a frame that the rest of the input finishes as recursive descent does |
| TlvGrammar.FinishClose | src/tlv/TlvReader.ts:79-83 | An end byte fills the innermost container and goes on in the one around it |
| TlvGrammar.FinishUnclosed | src/tlv/TlvReader.ts:44-100 | Input that ends inside open containers leaves each holding what was read, nested as opened |
| TlvReader.TlvReader.Decode | src/tlv/TlvReader.ts:44-100 | On every byte string the stack reader throws exactly when recursive descent fails, and otherwise appends exactly its forest to the root, as a tree of arrays of which none has two parents |
| TlvReader.CloseInnermost | src/tlv/TlvReader.ts:79-83 | Leaving a container makes it a closed subtree of its parent and keeps the chain of open containers |
| TlvWriter.TlvWriter.Encode | src/tlv/TlvWriter.ts:212-281 | Appends the element's encoding, and only that; throws exactly where that has none, with the old bytes kept |
| TlvWriter.TlvWriter.EncodeArray | src/tlv/TlvWriter.ts:212-221 | Appends the encodings of all elements in order |
| TlvWriter.TlvWriter.Put | src/tlv/TlvWriter.ts:173-195 | Appends the encoding of a value chosen by its JavaScript type; an array is walked |
| TlvWriter.EncodeSnoc | src/tlv/TlvWriter.ts:216-221 | A forest is encoded element by element from the left, failing with the last |
| TlvWriter.EncodePrefixFails | src/tlv/TlvWriter.ts:216-221 | A forest fails to encode with its first failing element's error |
| TlvTheorems.WritesExactlyWritable | src/tlv/TlvWriter.ts:173-281 | The writer returns exactly on forests whose tags, widths and values are in range, bigints only beyond 32 bits |
| TlvTheorems.IntegersWrite | src/tlv/TlvCodec.ts:105-185 | Signed numbers are written exactly in the 64-bit range, unsigned ones too, but bigints only beyond 32 bits |
| TlvTheorems.TagsWrite | src/tlv/TlvCodec.ts:228-353 | A control byte is written exactly for tags that fit their profile's form |
| Tlv.LengthIsByteCountIffAscii | src/tlv/TlvWriter.ts:131-138 | The length that is written is the byte count exactly for ASCII strings |
| TlvRoundTrip.TagReadsBack | src/tlv/TlvCodec.ts:490-549 | The tag decoder reads back every encoded tag, aliases folded; an oversized fully qualified tag comes back anonymous |
| TlvRoundTrip.UnsignedDecodes | src/tlv/TlvCodec.ts:147-185 | An unsigned integer in its least width decodes to itself, as a bigint at 64 bits |
| TlvRoundTrip.SignedDecodes | src/tlv/TlvCodec.ts:105-134 | A signed integer in its least width decodes to itself |
| Doubles.DoubleIsNumber | src/tlv/TlvCodec.ts:440-446 | A normal double reads as the integer q if and only if q * 2^1075 is its signed significand times 2 to its exponent; otherwise as itself |
| Doubles.OtherDoubles | src/tlv/TlvCodec.ts:440-446 | Zeros read as 0; subnormal numbers, infinities and what is no number as themselves |
| Doubles.IntegerDoubleDecodes | src/tlv/TlvCodec.ts:440-446 | The IEEE 754 bytes of every integer of up to 53 bits decode to that integer |
| TlvVectors.Integers | test/tlv/TestTlvCodec.js:25-84 | The integers of the test vectors are written as wanted there |
| TlvVectors.OtherScalars | test/tlv/TestTlvCodec.js:91-120 | So are booleans, null, a string and a buffer |
| TlvVectors.Tags | test/tlv/TestTlvCodec.js:121-171 | So is null under every form of tag |
| TlvVectors.Containers | src/tlv/TlvWriter.ts:140-165 | The bytes that start and end containers |
| TlvVectors.BooleanIsTruth | src/tlv/TlvWriter.ts:93-97 | A boolean element is written as true for every value but undefined, false, zeros, the empty string and what is no number |
| TlvPrinter.FromHexReadsPairs | src/tlv/TlvWriter.ts:212-281 | A string typed "Buffer" is read in pairs of hex digits up to the first that is none |
| TlvRoundTrip.ForestReadsBack | src/tlv/TlvReader.ts:44-100 | What the writer made of a faithful forest, followed by anything, reads as its normal form followed by that |
| TlvTheorems.DecodeEncodeIffFaithful | src/tlv/TlvWriter.ts:212-281 | A writable forest decodes to its normal form, all bytes consumed and nothing left open, if and only if it is faithful |
| TlvTheorems.UnfaithfulMisreads | src/tlv/TlvCodec.ts:456-473 | An unfaithful forest is misread whatever follows it: reading fails, or starts with something else, or goes on with an entry without a type where what follows does not read as that |
| TlvTheorems.OneReplacementReads | src/tlv/TlvCodec.ts:456-463 | A string of ASCII and then U+FFFD is read as itself, but its last two bytes are left to be read again |
| TlvTheorems.StrayDiffers | src/tlv/TlvReader.ts:44-100 | Two such bytes in front of any bytes never read as these bytes alone |
| Tlv.ReplacedIffUtf8 | src/tlv/TlvCodec.ts:456-463 | Reading as a string keeps exactly well-formed bytes |
| Tlv.CutComesBackIff | src/tlv/TlvCodec.ts:456-463 | As many bytes of a string as it has UTF-16 units read as the string if and only if it is ASCII, or ASCII and then U+FFFD |
| Texts.Utf8IffScalars | src/tlv/TlvCodec.ts:456-463 | The strings are exactly the UTF-8 encodings of Unicode scalar values |
| Texts.ScalarsAreUtf8 | src/tlv/TlvWriter.ts:131-138 | The length written counts two for every scalar value beyond U+FFFF and one for every other |
| TlvTheorems.NonAsciiStringIsLost | src/tlv/TlvWriter.ts:131-138 | The string U+00E9 is written so that decoding throws |
| TlvCanonical.ScanReencodes | src/tlv/TlvCodec.ts:355-549 | Scanning least widths, ASCII and unaliased profiles while reading ensures that the items re-encode to the bytes read |
| TlvBijection.EncodeDecodeCanonical | src/tlv/TlvType.ts:19-23 | For every canonical byte string, encoding the decoded forest reproduces it |
| TlvBijection.FaithfulOutputIsCanonical | src/tlv/TlvWriter.ts:212-281 | What the writer makes of a faithful forest is canonical |
| TlvBijection.NormalFormWritesTheSame | src/tlv/TlvType.ts:19-23 | A forest and its normal form have the same bytes |
| TlvAccess.StructureIsPrefixFree | src/tlv/TlvWriter.ts:212-281 | A written structure at the front of a byte string determines where it ends |
| TlvAccess.TaggedIsFirst | src/tlv/TlvParser.ts:38-57 | Of members with the same tag the first is found, and undefined without one |
| TlvAccess.AtIsIndexed | src/protocols/session/PaseSession.js:545-555 | Arrays, buffers and strings can be indexed up to their length, and nothing else |
| Lalr.ParserState.FeedToken | tools/schema/matter_grammar.js:2731-2783 | Feeds one token into the two stacks as the specification does: error, shift, reductions or result |
| Lalr.FeedKeeps | tools/schema/matter_grammar.js:2731-2783 | Feeding a token keeps the stacks the spelling of the consumed tokens, with values from the callbacks and one state more than values |
| Lalr.FeedReturnsOnlyAtEnd | tools/schema/matter_grammar.js:2731-2783 | Only the end token makes the driver return |
| Lalr.EndMeansOneTree | tools/schema/matter_grammar.js:2774-2782 | When the end is accepted, the value stack holds one tree, of the start symbol |
| Lalr.ParseFromSound | tools/schema/matter_grammar.js:2814-2826 | Parsing on from any sound stacks returns only derivations of all tokens, those consumed and those to come |
| Lalr.ParseSound | tools/schema/matter_grammar.js:2786-2826 | Over a valid table, a returned value is the callbacks' value of a derivation tree of the start symbol whose frontier is exactly the tokens; no undefined entry is read |
| LalrComplete.EmptyReduces | tools/schema/matter_grammar.js:2731-2783 | Where an item expects only what can be empty before the end, the state reduces at the end |
| LalrComplete.Drive | tools/schema/matter_grammar.js:2731-2783 | Where a symbol is expected, the driver takes any tree of that symbol through to its state and its value, whatever may follow |
| LalrComplete.ParseComplete | tools/schema/matter_grammar.js:2786-2826 | Over a table closed under lookaheads, parsing the frontier of any derivation of the start symbol to terminals returns that derivation's value |
| LalrComplete.AcceptedIffDerived | tools/schema/matter_grammar.js:2786-2826 | Over a table valid and closed, of terminal tokens exactly the frontiers of derivations are accepted |
| LalrComplete.Unambiguous | tools/schema/matter_grammar.js:2786-2826 | Terminal tokens have at most one derivation under a grammar with such a table |
| LalrComplete.ListTableIsComplete | tools/schema/matter_grammar.js:2786-2826 | The table of a left-recursive list, with no action at the end in its end state, is valid and closed |
| LalrEnds.Context | tools/schema/matter_grammar.js:2731-2783 | Over a generated table, every node that can stand on the stack stands in a derivation of the start symbol, and parsing its frontier leads to where the node begins |
| LalrEnds.ReductionsEnd | tools/schema/matter_grammar.js:2747-2782 | In front of any token only so many reductions are made |
| LalrEnds.DriverEnds | tools/schema/matter_grammar.js:2786-2826 | Over a generated table the driver stops on all terminal tokens, and with turns enough it returns exactly if they have a derivation |
| LalrEnds.ListTableIsGenerated | tools/schema/matter_grammar.js:2786-2826 | The table of a left-recursive list is generated |
| TreeBuilder.FilterInPlace | tools/schema/matter_grammar.js:2344-2370 | The filter that reuses the first expanded child's array gives the list of the copying filter |
| TreeBuilder.ValueStack.Run | tools/schema/matter_grammar.js:2731-2783 | Over a whole run the stack with reused arrays equals the stack with copied ones, since the driver uses each value once |
| TreeBuilder.ValueStack.Reduce | tools/schema/matter_grammar.js:2763-2777 | A reduction replaces the last values by what the copying filter builds from them |
| TreeBuilder.ReductionLeaves | tools/schema/matter_grammar.js:2199-2211 | A rule that expands a single child leaves that child where just one is kept; every other reduction leaves a tree of the rule's name over the kept list |
| TreeBuilder.RunNoSingles | tools/schema/matter_grammar.js:2199-2211 | Over every run no tree made by a rule that expands a single child has just one child |
| ChildFilters.Choose | tools/schema/matter_grammar.js:2410-2435 | The loop that includes symbols and counts the empty items before them |
| ChildFilters.PlaceholdersAlign | tools/schema/matter_grammar.js:2344-2370 | The filter with placeholders puts a null in the place of every empty item, and every kept child in its own |
| ChildFilters.PlaceholdersAreLost | tools/schema/matter_grammar.js:2410-2455 | The filter that is selected gives the placeholders if and only if no item is empty; else it leaves all of them out |
| TreeBuilder.LeftRecursiveListIsFlat | tools/schema/matter_grammar.js:2377-2400 | A left-recursive list over n items is one flat child list in source order |
| LalrTrees.TraceFits | tools/schema/matter_grammar.js:2731-2783 | Over a valid table, with filters that take a rule's children in order and expand only what is always a tree, no turn of the value stack fails |
| LalrTrees.DriverRuns | tools/schema/matter_grammar.js:2731-2783 | What the driver has on its value stack, and what it returns, is what its turns make there |
| LalrTrees.RunInPlace | tools/schema/matter_grammar.js:2731-2783 | Over any valid table and tokens, the driver's value stack with reused arrays stands at every turn for that with copied ones, and a value returned for that of a derivation of the tokens |
| LalrTrees.DerivedListIsFlat | tools/schema/matter_grammar.js:2377-2400 | Every derivation of a left-recursive list has its tokens as flat children, in source order |
| LalrTrees.ListIsParsed | tools/schema/matter_grammar.js:2786-2826 | The driver parses any items as such a list |
| LalrTrees.ListInPlace | tools/schema/matter_grammar.js:2344-2370 | When the driver returns on items, the tree on the value stack holds one array of exactly these tokens |
| Transformer.ToReversePostfix | tools/schema/matter_grammar.js:1146-1155 | The stack loop lists the nodes in reverse postfix order |
| Transformer.TransformNonRecursive | tools/schema/matter_grammar.js:1144-1189 | Returns the bottom of what the postfix machine leaves |
| Transformer.NonRecursiveAgreesIff | tools/schema/matter_grammar.js:1144-1189 | The machine makes the recursive transformer's calls of tree and token callbacks, in order and with equal arguments, if and only if every node keeps all its children or has nothing below it on the stack; it then leaves the same result, or an empty stack, so undefined, where the root's callback discards |
| Transformer.NonRecursiveAgrees | tools/schema/matter_grammar.js:1144-1189 | Without Discard the machine agrees in calls and result |
| Transformer.NonRecursiveLosesItsPlace | tools/schema/matter_grammar.js:1144-1189 | A tree with one discarded token on which the two differ |
| TransformerInPlace.IterSubtrees | tools/schema/matter_grammar.js:872-887 | Lists every node of a tree exactly once, children before parents, the root last |
| TransformerInPlace.ReplaceAll | tools/schema/matter_grammar.js:1119-1132 | Replacing children node by node leaves each node with the transformed children |
| TransformerInPlace.TransformInPlace | tools/schema/matter_grammar.js:1119-1132 | Gives the recursive transformer's result, Discard included, and calls each node's callback exactly once |
| Lexers.LexingTiles | tools/schema/matter_grammar.js:2001-2066 | Matches tile the consumed text; each token is the text between its start and end; line and column are those of the text, if and only if no newline went unflagged |
| Lexers.FeedPlace | tools/schema/matter_grammar.js:1699-1712 | The counter after a match is the place of the text if and only if newlines were looked for or there are none |
| Lexers.NewlinesAreCounted | tools/schema/matter_grammar.js:1699-1712 | Newlines are counted, and the last line starts behind the last of them |
| Lexers.LexingEndsIff | tools/schema/matter_grammar.js:2001-2066 | Lexing ends if and only if the scanner gives no empty match at a place that is reached |
| Lexers.LexingEnds | tools/schema/matter_grammar.js:2001-2066 | If it ends, then within one turn more than the text is long |
| Lexers.NonEmptyEnds | tools/schema/matter_grammar.js:1901-1909 | If no terminal matches the empty string, lexing ends on every text: with all of it matched, or in front of a character that nothing matches |
| Lexers.Lossless | tools/schema/matter_grammar.js:2001-2066 | A run that reaches the end of file has matched the whole text |
| Lexers.StuckForEver | tools/schema/matter_grammar.js:2001-2066 | From an empty match on, at whatever place, the same match is taken for ever |
| Lexers.LineCounter.FeedText | tools/schema/matter_grammar.js:1699-1712 | Advances position, line, column and line start as the specification does |
| Lexers.BasicLexer.NextToken | tools/schema/matter_grammar.js:2001-2066 | Returns the next token that is not ignored, or why there is none |
| Lexers.BasicLexer.Lex | tools/schema/matter_grammar.js:1987-1999 | Yields all tokens of the run up to its end |
| Indenters.IndentsBalance | tools/schema/matter_grammar.js:3834-3889 | At every token yielded the levels ascend from 0 and number one more than INDENTs exceed DEDENTs; a completed run yields as many of each |
| Indenters.RunLevels | tools/schema/matter_grammar.js:3834-3883 | The levels are exactly the line widths that no later line undercut |
| Indenters.DedentMustMeetOpenWidth | tools/schema/matter_grammar.js:3840-3862 | A line is accepted if and only if it is wider than every open width or as wide as one, and closes exactly the wider ones |
| Indenters.WidthIsSum | tools/schema/matter_grammar.js:3842-3843 | The width of a line is its spaces, and the tab length for every tab |
| Indenters.LineIsLast | tools/schema/matter_grammar.js:3840-3841 | A line begins behind the last newline of the token |
| Indenters.ParensCount | tools/schema/matter_grammar.js:3865-3876 | The level of parentheses is the opening less the closing tokens so far |
| Indenters.StreamIsHandedOn | tools/schema/matter_grammar.js:3865-3882 | The tokens handed on are the stream's, in order, but for newlines within parentheses |
| Indenters.RunMarked | tools/schema/matter_grammar.js:3842-3853 | Every INDENT and DEDENT within the stream has the text that begins its line |
| Indenters.FinishCloses | tools/schema/matter_grammar.js:3878-3881 | The end of the stream adds one DEDENT without text for every level but the outermost |
| Indenters.Indenter.HandleNewline | tools/schema/matter_grammar.js:3834-3862 | Yields the newline and its INDENT or DEDENTs and updates the levels as the specification does |
| Indenters.Indenter.ProcessStream | tools/schema/matter_grammar.js:3865-3889 | Yields exactly the specified tokens for the whole stream |
| PaseMessages.RequestParses | src/protocols/session/PaseSession.js:200-220 | Every member of the request is read as the client wrote it: random, session id, passcode id 0, no flag, and the intervals |
| PaseMessages.ResponseParses | src/protocols/session/PaseSession.js:246-263 | Every member of the response is read as the server wrote it: both randoms, session id, iterations and salt |
| PaseMessages.Pake2Parses | src/protocols/session/PaseSession.js:289-294 | The client reads from Pake2 the share and confirmation the server wrote |
| PaseMessages.Pake3Parses | src/protocols/session/PaseSession.js:310-314 | The server reads from Pake3 the confirmation the client wrote |
| PaseMessages.HexIsDigits | src/protocols/session/PaseSession.js:455-470 | Hex is two lower-case digits for every byte, the high one first |
| PaseMessages.FlagAsHex | src/protocols/session/PaseSession.js:455-470 | A flag in place of a random comes back as nothing or as one byte |
| PaseMessages.StatusKeepsCodeOnly | src/protocols/session/StatusReport.js:69-82 | Of a status report only the protocol code and half the protocol id can be read |
| PaseMessages.HashedBytesSplit | src/protocols/session/PaseSession.js:322-333 | Request and response can be told apart in the bytes that are hashed, and determine their session ids |
| PaseSessions.PaseSession.SetState | src/protocols/session/PaseSession.js:111-133 | Sets the state and rearms or clears the timer |
| PaseSessions.PaseSession.OnPbkdfParamRequest | src/protocols/session/PaseSession.js:408-476 | Idle only: stores the request and answers it; an exception leaves the fields set so far |
| PaseSessions.PaseSession.OnPbkdfParamResponse | src/protocols/session/PaseSession.js:478-508 | In any state: stores the response, hashes it with the stored request and awaits the verifier |
| PaseSessions.PaseSession.OnPake1 | src/protocols/session/PaseSession.js:537-563 | Awaiting Pake1 only: stores the share, hashes the stored messages and awaits the verifier |
| PaseSessions.PaseSession.ResumeHandler | src/protocols/session/PaseSession.js:563-618 | A suspended handler goes on with what is stored when it resumes |
| PaseSessions.PaseSession.OnPake2 | src/protocols/session/PaseSession.js:620-689 | Awaiting Pake2 only: derives the secret, goes idle, sends its confirmation and makes a session |
| PaseSessions.PaseSession.OnPake3 | src/protocols/session/PaseSession.js:691-723 | Awaiting Pake3 only: makes a session if and only if the confirmation is accepted |
| PaseSessions.PaseSession.CreateSecureSession | src/protocols/session/PaseSession.js:757-771 | A session under the stored ids, own first by role, with the stored secret |
| Pase.PartyInvariant | src/protocols/session/PaseSession.js:111-133 | Over every run of a party: a timer is armed exactly while not idle; awaiting Pake3 it holds the secret of the last Pake2 sent, whose payload reads back as its share and the MAC of the other's share under its own confirmation key; one session for every Pake3 and status report sent, reports at most Pake2 sent, these and the handlers serving one at most Pake1 accepted |
| Pase.ServingPartyBound | src/protocols/session/PaseSession.js:537-723 | A party that starts nothing and is sent no parameter response makes at most as many sessions as it sends Pake2 |
| PaseSessions.PaseSession.OnExchangeMessage | src/protocols/session/PaseSession.js:798-816 | Takes the message to its handler; the party stays where its events lead and keeps what every party keeps |
| PaseSessions.PaseSession.OnTimeout | src/protocols/session/PaseSession.js:111-118 | An armed timer that fires makes the party idle |
| Pase.SendsInTurn | src/protocols/session/PaseSession.js:348-816 | A step sends one message at most, each only from the state and the event that it answers, and leaves the state that awaits the answer |
| Pase.OutOfTurnIgnored | src/protocols/session/PaseSession.js:408-745 | Out of turn a start and every message but a parameter response change nothing |
| Pase.RejectTakesOne | src/protocols/session/PaseSession.js:478-575 | A rejected promise takes its handler away and changes nothing else |
| Pase.ResponseSuspendsIff | src/protocols/session/PaseSession.js:478-508 | A response suspends a handler if and only if a request was stored and a key can be derived with the parameters |
| PaseRun.RunFits | src/protocols/session/PaseSession.js:367-771 | Every run of two honest parties keeps: ids stored beside their messages, contexts of exchanged messages only, secrets derived from the other's share, every Pake3 backed by a session, every server session confirmed by a client session |
| PaseAgreement.EqualConfirmations | src/protocols/session/PaseSession.js:637-713 | Equal confirmations come from equal contexts and, as both ends derive the same, from equal keys |
| PaseAgreement.ContextsMatch | src/protocols/session/PaseSession.js:322-333 | Sessions of equal context hashed the same request and response and no others |
| PaseAgreement.Agreement | src/protocols/session/PaseSession.js:367-771 | For every server session the client has made one with the same keys from the same hashed bytes; where ids tell messages apart, the ids are crossed if and only if both had the same messages stored, and, given that one session is from the messages it hashed, if and only if the other is |
| PaseAgreement.OrderlyAgreement | src/protocols/session/PaseSession.js:367-771 | If no suspended handler is overtaken, the messages are the same and the ids crossed |
| PaseHandshake.HandshakeCompletes | src/protocols/session/PaseSession.js:367-771 | Without loss both make a session, ids crossed, with the same secret; the shares and confirmations that were sent are what each end computes from its own share |
| PaseHandshake.OvertakenIdsDiffer | src/protocols/session/PaseSession.js:478-535 | A run in which both make a session with the same secret and the ids are not crossed |
| PaseHandshake.UnaskedResponseMakesSession | src/protocols/session/PaseSession.js:478-508 | A run in which a server makes a session and has sent no Pake2 |
| PaseHandshake.StartMakesSession | src/protocols/session/PaseSession.js:348-406 | A run in which a party that starts, and is sent no request, makes a session and has sent no Pake2 |
| PaseWire.TransmitFrames | src/message/Exchange.js:68-84 | A PASE message that an end of an unsecured exchange sends never throws, and the bytes say its protocol, opcode and payload, the exchange, the direction and the node id |
| PaseNet.ListenersHear | src/message/ExchangeManager.js:83-118 | Once a party listens, it hears everything that the other end put on the wire, whatever else is in the tables |
| PaseNet.NothingFromElsewhere | src/message/ExchangeManager.js:83-118 | And no message that is not of its exchange |
| PaseNet.WireRun | src/message/SessionManager.js:113-150 | Every run over wire bytes, routed by both nodes' tables among other traffic, is a run of two honest parties, whose every message is on the wire as one byte string that says it |
| PaseNet.WireLifts | src/message/SessionManager.js:113-150 | Every run of two honest parties can be had on the wire, in no more steps |
| PaseNet.WireReaches | src/message/SessionManager.js:113-150 | The same states of both parties are reached by runs over wire bytes and by runs in which messages are handed over |
| PaseNet.WireAgreement | src/protocols/session/PaseSession.js:367-771 | Agreement holds of parties that see nothing but the bytes that their nodes route to them, lost, late, reordered or repeated, among other traffic |
| PaseNet.RepliesAcknowledge | src/message/Exchange.js:68-80 | Over every run on the wire each message of the server has the A flag, as the client's had the R flag, and acknowledges the client's message that came last |
| Frame.FieldsReadBack | src/message/Message.js:76-275 | Every getter reads from the laid out bytes the field that was put there |
| Frame.VectorReads | test/message/TestMessage.js:61-98 | The fields of the test's message are read as wanted there |
| Frame.SetsOneBit | src/message/Message.js:228-248 | Setting or clearing a flag leaves the other bits |
| Frame.InsertNode | src/message/Message.js:116-184 | Inserting a node id in a buffer gives the layout with the id, all else unchanged |
| Frame.InsertAck | src/message/Message.js:250-261 | Inserting an ack counter gives the layout with the counter, all else unchanged |
| Drafts.SourceLaidOut | src/message/Message.js:116-131 | The first source node id goes in behind the message header, all else unchanged |
| Drafts.DestinationLaidOut | src/message/Message.js:152-184 | So does the first destination node id of a message without source |
| Drafts.SourceGoesFirst | src/message/Message.js:116-131 | On any layout the source goes in front of a destination, once, and is overwritten from then on |
| Drafts.DestinationGoesBehind | src/message/Message.js:152-184 | On any layout the destination goes behind a source in eight or two bytes, once; a group id that does not fit throws with its room made |
| Drafts.FlagsOnlyGrow | src/message/Message.js:88-103 | Neither setter of the message flags can clear its own bits, and both clear all others |
| Drafts.AckLaidOut | src/message/Message.js:250-261 | The acknowledgement goes in behind the exchange header, all else unchanged |
| Drafts.AckTwice | src/message/Message.js:250-261 | A second acknowledgement goes in before the first, which becomes payload |
| Drafts.ComposedIsFresh | src/message/Message.js:54-65 | A new message with protocol, opcode and payload set is laid out with these and nothing else |
| Messaging.Message.SetSource | src/message/Message.js:116-131 | On any message: nothing without the flag, insertion the first time, overwriting afterwards |
| Messaging.Message.SetDestination | src/message/Message.js:152-184 | On any message: by the size bits, eight or two bytes behind a source if there is one, overwriting afterwards, an exception at size 3 |
| Messaging.Message.SetAck | src/message/Message.js:250-261 | On any message: nothing without the flag, insertion every time |
| Messaging.Message.SetFlag | src/message/Message.js:228-248 | On any message: the bit of the exchange flags, where the message flags put them |
| Messaging.NewMessage | src/message/Message.js:54-65 | A new message with protocol, opcode and payload set in turn |
| Messaging.Exchange.FillIn | src/message/Exchange.js:68-80 | On any message: exchange id, flags and acknowledgement in the code's order, up to an exception |
| Messaging.Session.SendMessage | src/message/Session.js:94-139 | On any message: what goes on the wire, and what becomes of the counter, the peer id and the message, also at an exception |
| Messaging.Exchange.SendMessage | src/message/Exchange.js:68-84 | The exchange header and then the session's send |
| Delivery.FillLaysOut | src/message/Exchange.js:68-80 | A fresh message becomes the layout with exchange id, flags and acknowledgement |
| Delivery.SendLaysOut | src/message/Session.js:94-139 | A laid out message goes out stamped: sealed, or with its node id put in |
| Delivery.UnsecuredDelivery | src/message/Session.js:94-139 | Over an unsecured session the receiver reads the payload, opcode, protocol, exchange, flags, counter and node id that were meant |
| Delivery.SecuredDelivery | src/message/Session.js:94-159 | Over a secured session an initiator's message decrypts to the message that was meant |
| Delivery.WideNumbersThrow | src/message/Session.js:94-133 | Session ids and counters that are too wide throw, the counter once it has counted; so does a responder without a peer |
| Delivery.ResentIffOdd | src/message/Session.js:94-133 | An initiator's unsecured message sent a second time goes out as before, but for the counter, if and only if the node id is odd |
| Delivery.EvenIdIsNotSentAgain | src/message/Session.js:94-133 | With the node id 2 the second send goes out under other flags than the first |
| MsgCodec.DecryptEncrypt | src/message/MsgCodec.js:226-293 | Decrypting with the same key undoes encrypting |
| MsgCodec.HeaderIsAuthenticated | src/message/MsgCodec.js:226-293 | Two messages that decrypt and have the same ciphertext and tag have the same header |
| MsgCodec.NonceHolds | src/message/MsgCodec.js:210-224 | The nonce is the security flags, the counter and the source node id that a receiver reads |
| MsgCodec.PrivacyNonceHolds | src/message/Message.js:288-310 | The privacy nonce is the session id, high byte first, and the last eleven bytes of the tag |
| MsgCodec.ObfuscatesHeaderOnly | src/message/Message.js:349-400 | With the privacy flag exactly counter and node ids are veiled, under that nonce; without it nothing is |
| MsgCodec.HeadersEndTogether | src/message/Message.js:191-206 | The two computations of where the header ends agree unless both size bits are set |
| MsgCodec.ObfuscateTwice | src/message/Message.js:329-401 | Obfuscating what was obfuscated, from the received bytes alone, gives the encrypted message |
| MsgCodec.SecureRoundTrip | src/message/Message.js:289-401 | Encrypt, obfuscate, deobfuscate, decrypt is the identity |
| Delivery.SealShowsNonce | src/message/MsgCodec.js:226-255 | The nonce a message is sealed under can be computed from what is sent |
| Delivery.NonceHoldsCounter | src/message/MsgCodec.js:210-224 | The nonce of whatever a secured session seals holds the session's counter |
| Delivery.SendsCount | src/message/Session.js:94-113 | The i-th of a run of sends goes out under the first counter plus i, if that fits in 32 bits, and throws otherwise |
| Delivery.NoncesNeverRepeat | src/message/Session.js:94-113 | Over every run of sends on a secured session no nonce is used twice, and at least 2^32 - 2^28 messages are sealed before a send throws |
| Routing.RunHolds | src/message/SessionManager.js:76-150 | After every run the two tables hold the map from address, port, node and exchange id to exchanges, and route as it does |
| Routing.RoutedByKey | src/message/ExchangeManager.js:49-117 | Exactly the responder messages are dropped; the handler sees exactly the first message of each key; two initiator messages reach the same exchange if and only if their keys are equal |
| Routing.SessionHears | src/message/SessionManager.js:113-150 | Exactly one session takes a message's counter and address, and its node id if it had none |
| Routing.ExchangeHears | src/message/ExchangeManager.js:83-117 | The message that opens an exchange decides its reliability and acknowledgements; a later one leaves its counter only |
| Routing.AcknowledgesLast | src/message/ExchangeManager.js:83-117 | Over every run an exchange acknowledges if and only if its first message asked for it, and then the last one that came |
| Routing.SentIsRoutedByKey | src/message/SessionManager.js:113-150 | Two messages that initiators sent reach the same exchange if and only if address, port, node and exchange id agree |
| Routing.ReplyArrivesIff | src/message/SessionManager.js:76-150 | A reply finds the exchange it answers if and only if no earlier session with its sender has the same node id or none |
| Routing.SilentSessionTakesReply | src/message/SessionManager.js:76-150 | Two exchanges of which the first has not sent: the reply to the second is dropped |
| Routing.SearchIsByKey | src/message/ExchangeManager.js:49-53 | The linear search finds the exchange of the key, or none |
| Routing.Router.OnUnsecuredMessage | src/message/SessionManager.js:113-150 | Finds or makes the session, refreshes it and routes the message |
| Routing.Router.OnSessionMessage | src/message/ExchangeManager.js:83-117 | Hands the message to its exchange, or to a new one and the protocol handler |
| AsyncQueues.FirstInFirstOut | src/async/AsyncQueue.js:26-46 | Over every interleaving the n-th dequeue resolves to the n-th enqueued value; one list is empty between calls; lengths track the difference |
| AsyncQueues.OneSideWaits | src/async/AsyncQueue.js:26-46 | Values wait or readers do, never both |
| AsyncQueues.AsyncQueue.Enqueue | src/async/AsyncQueue.js:38-41 | Resolves the first waiting reader, or stores the promise |
| AsyncQueues.AsyncQueue.Dequeue | src/async/AsyncQueue.js:43-46 | Takes the first promise, or leaves a resolver |
| ReadReports.OnReadRequest | src/protocols/interaction_model/ImReadMixin.js:83-136 | The streamed payload is the encoding of the report's tree, and fails exactly where a lookup or the writer throws |
| ReadReports.ReportWildcard | src/protocols/interaction_model/ImReadMixin.js:113-122 | A wildcard reports the successful lookups of every endpoint in table order |
| ReadReports.Serialize | src/protocols/interaction_model/AttributePath.js:72-79 | Writes the list of the path's defined members |
| ReportRoundTrip.ReportsAreSuccesses | src/protocols/interaction_model/ImReadMixin.js:104-123 | The reports are those of the successful lookups, in loop order |
| ReportRoundTrip.BytesAskForEverything | src/protocols/interaction_model/ImReadMixin.js:83-104 | A byte string in place of the list of paths, or of a path, asks for everything, once for every byte |
| ReportRoundTrip.PathReadsBack | src/protocols/interaction_model/AttributePath.js:34-45 | The path built from a written path is that path if and only if none of its members is a plain number beyond 32 bits, which comes back as a bigint |
| ReportRoundTrip.AgainIsSame | src/protocols/interaction_model/AttributePath.js:34-79 | A path member comes back unchanged if and only if it is no plain number beyond 32 bits |
| ReportRoundTrip.UnderstoodIffNarrow | src/protocols/interaction_model/ImReadMixin.js:83-94 | A request written for a path is understood, as just this path, if and only if all its numbers fit in 32 bits; otherwise it throws |
| ReportRoundTrip.ReportReadsBack | src/protocols/interaction_model/ImReadMixin.js:72-136 | The report decodes to one structure of one array tagged 1 with exactly one entry for each successful lookup, in order, each with the value's normal form and with the lookup's path, exactly if it holds no plain number beyond 32 bits |

## Left out

- Shell, discovery, sockets, logging, tracing, persistent storage, process spawning, cluster servers: I/O and data.
- AES, HKDF, PBKDF2, SPAKE2+, HMAC and SHA-256: parameters. `verifyHash` is not in the repository; it is taken to accept exactly the MAC of the server's own share.
- The generated grammar tables and the construction of scanners: an abstract table with a validity predicate, an abstract scanner. User callbacks of the lexer beyond the change of a token's type.
- LalrEnds.DriverEnds: is about generated tables, with a justification for each item and no name that derives nothing; nothing keeps a table that is only valid and closed from looping in states that no generator would make.
- PaseNet.WireAgreement: one client and one server; of what else the nodes do, messages received from elsewhere are in the runs, exchanges started there besides the client's are not; a node id is drawn new and not 0, and an end stops when its 32-bit message counter is used up.
- `Transformer_InPlaceRecursive`: it is `Transformer` with the new child list stored back in the node.
- TlvReader.TlvReader.Decode: does not state what the heap holds after an exception, nor reading on with a reader that was left inside an unclosed container.
- TlvWriter.TlvWriter.Encode: lone surrogates, NaN payloads, objects given to `put` as values and other wrongly typed values are outside the model.
- TlvTheorems.DecodeEncodeIffFaithful: floats and doubles are byte patterns; a double with an integral value is written as an integer by the code and excluded from the model's doubles.
- ReportRoundTrip.ReportReadsBack: values that the writer cannot carry, such as non-ASCII strings, are excluded by its precondition.
- PaseAgreement.Agreement: the converse, that a client's session has a server's, is not claimed, since the client does not check the server's confirmation.
- Pase.PartyInvariant: a Pake payload whose share is no byte string fails when the handler finishes, as a point that cannot be decoded does.
- Delivery.SecuredDelivery: messages from responder to initiator are encrypted with one key and decrypted with the other; nothing is claimed of them.
- Delivery.UnsecuredDelivery: is about fresh messages; what the setters and the session do to any other is stated, what a receiver makes of it is not.
- Group destination ids are written but never read back; `Message.DestinationNodeId` has no model for groups.
- Routing.RoutedByKey: runs without locally started exchanges, of which `Routing.ReplyArrivesIff` speaks; sessions and exchanges are table places, not references.
- AsyncQueues.FirstInFirstOut: promises are numbers; scheduling of their continuations is not modelled.
- `CommandPath.serialize`, `ExchangeManager.deleteExchange`, lookup of secure sessions by peer id, `TlvParser.JsonStringify`: they do not do what their names say.
