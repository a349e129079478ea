# Verified models of llama.cpp's text and tensor transformations

This project models, in Dafny, the parts of llama.cpp that rewrite text or tensors and must keep
their meaning while doing so, and proves what the rest of the program relies on.

* **Partial JSON** (`JsonMachine`, `JsonGrammar`, `JsonUnicode`, `JsonShape`, `JsonErrorLocator`,
  `JsonCompletion`, `JsonHealing`, `JsonParse`, `JsonStops`, `JsonPartialResults`). A model's reply is parsed while it is still being written. JSON
  texts (RFC 8259, sections 2 to 7) are the language of a character-level pushdown machine, escapes,
  surrogate pairs and UTF-8 (RFC 3629, section 4) included, and "the library parses s" means that the
  machine accepts s; it accepts exactly the texts of syntax trees. A listener object keeps a stack of what is open; a decision tree of trial parses
  then completes a truncated text around a marker. The main result says exactly which truncated texts
  are completed.
* **Values and cleaning** (`JsonDump`, `JsonValues`, `JsonCleaning`, `JsonHealedValues`,
  `JsonPartialValues`, `JsonUnmarked`, `JsonConsume`). While the machine reads a text, the value is built
  as the JSON library builds it; it is what the text's syntax tree denotes. The parsed value is rid of what healing
  added, and the arguments in it are dumped; the model follows the closure of the source with its
  `path` and flag, also where a path is left on the stack. The main result goes from the truncated
  input to the delivered value and says all of it: what is complete, arguments dumped as far as they
  go, and no marker; or an exception, exactly where something that is no string is met at a content path.
* **Streaming of arguments** (`JsonGrowth`, `JsonReadingOn`, `JsonStreaming`). What is delivered of a
  partial reply stays when more of the reply arrives; only what is last in it goes on.
* **Byte-pair encoding** (`Bpe`). A rank table is turned into a merge list; the list tokenizes every
  byte string exactly as the table does. The proof rests on a locality lemma for runs.
* **Adapters as factor pairs** (`Tensors`, `Lora`, `LoraExpressions`, `LoraItems`, `LoraBatches`,
  `LoraSlices`, `LoraMeaning`).
  `LoraTorchTensor` indexes, reshapes, permutes, stacks and concatenates the pair (A, B) without
  forming B·A. Each operation is proved to do to the product what it says, and so is every expression
  built of them; what the operations mean is said element by element, and when they succeed exactly.
* **Row rearrangements** (`Arithmetic`, `RowLayouts`, `QkvLayouts`). The converter's clients of those
  operations: the llama `permute` and the Falcon and InternLM2 splits of joint attention weights,
  as bijections on rows.
* **Streaming chat parser** (`Strings`, `ChatParser`, `ChatContent`). What is shown for a partial reply must not be
  taken back when more of it arrives.
* **In-place text algorithms** (`Base64`, `Escapes`, `Lcs`). Base64 (RFC 4648, sections 4 and 5) with
  in-place decoding, unescaping with two indices, and a dynamic program over two rolling rows.
* **Expert merging and old model files** (`Experts`, `GgmlLoader`, `GgmlBytes`, `GgmlQuants`).

The model has the form of the source: objects whose methods move a cursor or grow a stack are classes,
loops are loops with invariants, and algorithms that overwrite their input work on arrays; each is
proved against a function, and the theorems are about that function. Torch expressions are functions.

Where the code does less than its documentation says, the code is modelled and the difference is a
theorem: a dump marker need not be unique in the healed text (`MarkerOverlapsInput`), an ellipsis
between index entries is not expanded as torch does (`EllipsisAsMeant`), a slice can drop A's only
block (`ItemSimulates`), some tags make the reasoning shrink (`NeverRetractsIff`), a reply that has
stopped inside the start tag shows it as content (`ContentStaysIff`), with reasoning in the content a
closing tag is shown that has not come (`InContentStaysIff`), and a reply that is one whole
JSON string loses its text exactly when there are paths of arguments, the whole value is not one of
them, and it is content (`WholeTextLostIff`); members that are strings keep theirs (`WholeMember`).
Arguments are taken back when a reply stops behind a backslash and a slash follows
(`ArgumentsStreamIff`), between the two bytes of a character (`HalfCharacterTakesBack`), and under a
marker that ends as it begins (`BorderTakesBack`); content is dropped at a backslash (`SlashDropsContent`).

## Model

| member | source | states |
|---|---|---|
| JsonMachine.Unwind | common/json-partial.cpp:159-169 | Right after a complete value, the closing brackets built for a list of containers unwind the machine to acceptance if and only if those are the containers that are open. |
| JsonErrorLocator.ErrorLocator.constructor | common/json-partial.cpp:46 | The listener starts with no error and nothing open. |
| JsonErrorLocator.ErrorLocator.ParseError | common/json-partial.cpp:48-54 | The position kept is the one reported minus one. |
| JsonErrorLocator.ErrorLocator.Scalar | common/json-partial.cpp:60-83 | A scalar closes the key it belongs to, and nothing else. |
| JsonErrorLocator.ErrorLocator.EndObject | common/json-partial.cpp:92-97 | Pops the object that the source asserts is on top, then the key that the object was the value of. |
| JsonErrorLocator.ErrorLocator.EndArray | common/json-partial.cpp:106-111 | The same for arrays. |
| JsonErrorLocator.ErrorLocator.Notify | common/json-partial.cpp:55-111 | For every step of the parser the events keep the listener's stack equal to the open containers with their open keys; the assertions of the handlers hold at each. |
| JsonErrorLocator.Elements | common/json-partial.cpp:11-20 | In the stack that belongs to a list of open containers a key stands only directly above an object, and the top tells whether a key, an object or an array is open. |
| JsonErrorLocator.ContainersOfElements | common/json-partial.cpp:159-169 | Leaving out the keys, that stack gives back the open containers. |
| JsonErrorLocator.SaxParse | common/json-partial.cpp:113-119 | An error is found if and only if the text is not accepted; its position is the library's, at the end for a truncated text; the stack is what is open where the longest error-free prefix ends. |
| JsonShape.ShapeHolds | common/json-partial.cpp:142-157 | For every text without an error: what its last characters say about where it stopped, and that cutting back to the last opener lands where a value of the innermost container starts whenever the stop was inside such a value. |
| JsonParse.BuildClosing | common/json-partial.cpp:159-169 | The loop builds exactly the closers of the open containers, innermost first. |
| JsonHealing.CompleteValue | common/json-partial.cpp:173-197 | What the chain of trial parses returns is a prefix of the input, a dump marker with one of five leads, and a tail that closes what is open; and at a stop in an object value the completed text is accepted if and only if a stop inside a string element can be cut back, with the whole input kept unless a cut is needed. |
| JsonHealing.CompleteItem | common/json-partial.cpp:198-218 | The same for the chain of an array, at a stop in an array. |
| JsonHealing.CompleteMember | common/json-partial.cpp:219-240 | The same for the chain of an object, at a stop between or inside its keys. |
| JsonHealing.ValueRight | common/json-partial.cpp:175-197 | For every stop in an object value, whichever branch the trial parses select: the completed text is accepted if and only if a stop inside a string element can be cut back, and the whole input is kept unless a cut is needed. |
| JsonHealing.ItemRight | common/json-partial.cpp:199-218 | The same for arrays. |
| JsonHealing.MemberRight | common/json-partial.cpp:220-240 | The same for object members. |
| JsonHealing.AllWellCut | common/json-partial.cpp:171-247 | Whatever branch is taken, the completed text is a prefix of the input, a dump marker with one of five leads, and a tail that ends the marker's string or key and closes what is open. |
| JsonHealing.CutBackRight | common/json-partial.cpp:190-196 | Cutting back to the last opener and adding the marker as a string yields an accepted text if and only if the cut lands where a value starts at the nesting of the stop. |
| JsonParse.CommonJsonParse | common/json-partial.cpp:22-256 | With the listener, the closing loop and the tree: the outcome for every input, parsed whole, healed, refused or an exception, is the one the next two theorems are about. |
| JsonParse.OpenIsHealed | common/json-partial.cpp:117-251 | An input that stopped in an open container is healed if and only if it is Healable, with all of it consumed, and all of it kept unless a cut is needed; otherwise the program throws. With nothing open it is refused. |
| JsonParse.ParsedIsSound | common/json-partial.cpp:117-255 | For every input, also malformed: it is parsed whole if and only if it is a JSON text; whatever is returned as parsed is a JSON text; a healed one is a prefix of the input, a dump marker and a tail. |
| JsonStops.JsonThenText | common/json-partial.cpp:113-127 | A JSON text with something behind it that cannot go on with it: the text is taken whole and what is behind is left, unless what is behind begins a string, a literal, a negative number or a number of several characters; there the scanner reads on, and nothing is taken. |
| JsonStops.ClosedEnds | common/json-partial.cpp:113-127 | Behind a JSON text that ends in a bracket or a quote, every character that is not blank is such a one. |
| JsonStops.TextBehindIgnored | common/json-partial.cpp:113-251 | Wherever the parser refuses a character inside a token, or one that begins no token, the outcome, whole, healed or an exception, is that of the text in front of it. |
| JsonStops.StrayToken | common/json-partial.cpp:113-251 | A token that stands where it is refused is read to its last character, or to the character that breaks it: in an open container, what is healed ends there; behind a JSON text, nothing is taken unless the token is one character. |
| JsonGrammar.MachineIsGrammar | vendor/nlohmann/json.hpp:13038-13328 | The machine accepts a text if and only if it is the text of a syntax tree of RFC 8259 with blanks around it: the trees spell out literals, the parts of numbers, escapes, surrogate pairs, UTF-8 characters, items and members. |
| JsonPartialResults.PrefixOfJsonHeals | common/json-partial.cpp:117-251 | Every prefix of a valid JSON text that stops inside a container and is ASCII without `\u` escapes is parsed as partial: all of it is consumed and the completed text is a JSON text. |
| JsonPartialResults.TextCutLands | common/json-partial.cpp:190-218 | A stop inside a string value, also in the middle of an escape or UTF-8 sequence, can be cut back if and only if the string so far contains no opener. |
| JsonPartialResults.KeyCutLands | common/json-partial.cpp:233-240 | A stop inside a key can be cut back if and only if the key so far contains no colon and the text in front of the key can be cut back. |
| JsonPartialResults.AfterMember | common/json-partial.cpp:233-240 | In front of a key that follows a member, cutting back lands on that member's colon if and only if its value's text contains no colon. |
| JsonPartialResults.ObjectAsMember | common/json-partial.cpp:233-240 | In front of the first key of an object that is itself a member's value, cutting back never lands. |
| JsonPartialResults.BracketBeforeEscape | common/json-partial.cpp:212-217 | The text `["[\u` is not healed: a concrete input for which the other direction fails. |
| JsonPartialResults.LeadFindsItself | common/json-partial.h:10 | A dump marker that begins with a quote, colon, comma or backslash occurs first where it was put, if the input does not contain the marker. |
| JsonPartialResults.BareMarkerFindsItself | common/json-partial.h:10 | A bare marker is found where it was put if and only if it does not occur earlier across the end of the kept text. |
| JsonPartialResults.MarkerOverlapsInput | common/json-partial.h:10 | A marker that is absent from the input can still be found too early: `11` after a text that ends in 1. |
| JsonPartialResults.CutAtDumpMarker | common/json-partial.h:10 | Cutting the healed text at its dump marker gives back the kept part of the input, exactly when the marker has a lead or does not overlap what was kept. |
| JsonDump.DumpIsJson | common/chat-parser.cpp:306 | The compact dump of every value is a JSON text. |
| JsonValues.DumpReadsBack | common/chat-parser.cpp:283-298 | Parsing the dump of a value gives the value back. |
| JsonGrammar.ValueIsMeant | common/json-partial.cpp:252-255 | The value built from any JSON text is what its tree denotes: the literal, the number as shown, strings by their code points, items and members in order. |
| JsonGrammar.DenotesOne | common/json-partial.cpp:252-255 | A tree denotes no other value. |
| JsonUnicode.StringMeans | vendor/nlohmann/json.hpp:7277-7861 | What stands between the quotes of any JSON string becomes a string that a UTF-8 decoder, written apart from the encoder, reads as the code points of its characters, one-letter escapes, `\u` escapes and surrogate pairs. |
| JsonUnicode.UnitsOf | vendor/nlohmann/json.hpp:7277-7861 | Whatever is read between quotes is written from such characters and escapes. |
| JsonUnicode.DecodeInjective | vendor/nlohmann/json.hpp:7405-7431 | No two strings have the same code points. |
| JsonGrammar.ValueIsUtf8 | common/chat-parser.cpp:283-306 | Every key and every string of the value of a JSON text is UTF-8, so that the strict dump of the library does not throw. |
| JsonDump.EscapesWritten | vendor/nlohmann/json.hpp:19112-19240 | In a dump seven characters are a backslash and a letter, other control characters `\u` and four small digits, and the rest as they are. |
| JsonUnmarked.TextUnmarked | common/chat-parser.cpp:304-312 | A JSON text without the marker that escapes no digit has a value without the marker. |
| JsonCleaning.DumpShows | common/chat-parser.cpp:306-312 | A digit marker occurs in a value's dump if and only if some key or string of it contains the marker. |
| JsonCleaning.ArgumentsClean | common/chat-parser.cpp:305-319 | Dumped arguments never show the marker, and the cut is noticed if and only if the value had it. |
| JsonCleaning.CleanRemoves | common/chat-parser.cpp:304-381 | At any place in a healed value: what the recursion returns has the marker in no key, string or dumped arguments, and the flag is set exactly if the part had the marker. |
| JsonCleaning.HealedIsCleaned | common/chat-parser.cpp:383-388 | An object or array that has the marker, and whose dump shows it only behind the dump marker's lead, comes out of the cleaning without the marker and is reported as partial. |
| JsonHealedValues.AsWritten | common/chat-parser.cpp:306 | Numbers that the dump shows as they are written show no marker that the text does not have. |
| JsonHealedValues.HealedText | common/json-partial.cpp:171-247 | Of any completed text with a fresh marker, no `\u` escape and no number shown with the marker: the value has the marker in a key or string, its dump shows the marker only where the dump marker's lead stands before it, and no escape shows it. |
| JsonConsume.PartialIsHealed | common/json-partial.cpp:171-247 | So it is for the text that the program completes: what the cleaning relies on is derived from the input. |
| JsonPartialValues.HoleDelivers | common/chat-parser.cpp:302-381 | Wherever the recursion meets containers with the marker in the string under way, it returns the members and items in front of it, dumped where they are arguments, with the containers inside cleaned likewise; arguments under way are their dump up to the dump marker; content under way is its text, if the marker is in the string itself; and it throws if and only if something that is no string is met at a content path. |
| JsonPartialValues.DeliversUnmarked | common/chat-parser.cpp:302-381 | No key, string or dumped arguments of that contain the marker. |
| JsonConsume.PartialIsCleaned | common/chat-parser.cpp:268-389 | From the truncated input to the delivered value: it is what is complete where the text stopped, with arguments dumped as far as they go, reported as partial and without the marker; or the program throws, exactly as above; in a reply that is not partial the value is refused. |
| JsonConsume.WholeReply | common/chat-parser.cpp:283-389 | A reply parsed whole is delivered as it is if there are no paths of arguments, and as its dump if the whole value is arguments. Otherwise the program throws exactly where something that is no string stands at a content path; a whole string that is content becomes empty and partial; and everything else keeps its text, with arguments dumped. |
| JsonConsume.TextBehindReply | common/chat-parser.cpp:233-298 | A reply that is a JSON text and something else behind it, such as the end tag of a tool call: the value of the text is delivered and the cursor stands behind the text, or there is nothing where the scanner reads on. |
| JsonConsume.WholeTextLostIff | common/chat-parser.cpp:283-331 | A reply that is one whole string comes out empty and partial if and only if there are paths of arguments, the whole value is not one of them, and it is content. |
| JsonConsume.WholeContent | common/chat-parser.cpp:283-331 | A concrete input for each case: the reply `"hi"` is kept, dumped, lost because the empty marker is found at once, or kept. |
| JsonConsume.TryConsumeJsonWithDumpedArgs | common/chat-parser.cpp:233-389 | The outcome for every input, marker and paths: nothing, an exception, or the value, flag and end position that the theorems are about. |
| JsonCleaning.CleanKeeps | common/chat-parser.cpp:304-381 | A value without the marker, healed elsewhere or parsed whole, is changed only by dumping what is at the paths of arguments, with path and flag as before. It throws exactly where something else than a string is met at a content path. The one exception is a whole string that is itself at a content path: it becomes empty and partial. |
| JsonCleaning.MembersKeep | common/chat-parser.cpp:334-361 | The members in front of the marker are all kept, in order, and the loop goes on behind them as if it began there; unless one of them is something else than a string at a content path. |
| JsonCleaning.WholeMember | common/chat-parser.cpp:344-356 | A member that is a string keeps its text, whatever the content paths, when the value was parsed whole. |
| JsonCleaning.Cleaner.CleanValue | common/chat-parser.cpp:302-381 | The closure with its path and flag computes the recursion, exceptions included. |
| JsonCleaning.Cleaner.CleanObject | common/chat-parser.cpp:332-363 | The loop over the members does, also where a path is not popped. |
| JsonCleaning.Cleaner.CleanArray | common/chat-parser.cpp:364-379 | The loop over the items does. |
| JsonCleaning.ConsumeJsonWithDumpedArgs | common/chat-parser.cpp:283-298 | Of a parsed value: what the caller gets is the value as it is, its dump, or the cleaned value with the flag. |
| JsonStreaming.AnyMarkerDelivers | common/chat-parser.cpp:18-24 | What is delivered of a partial reply does not depend on the fresh marker that was drawn. |
| JsonStreaming.ArgumentsStream | common/chat-parser.cpp:268-389 | What is delivered of a partial reply stays in what is delivered of every extension of it without an error, partial or whole, whatever fresh markers are drawn for the two: members and items stay as they are, only the last dumped arguments or content grow, and containers at the end go on; a reply that throws goes on throwing. Unless the reply stopped behind a backslash and a slash follows; for extensions that stop between characters. |
| JsonStreaming.ArgumentsStreamIff | common/chat-parser.cpp:305-319 | Where the whole reply is arguments, those of the partial reply are a prefix of those of the extension if and only if it is not so that the reply stopped behind a backslash and a slash follows, which is dumped without one. |
| JsonStreaming.BorderTakesBack | common/chat-parser.cpp:308-312 | A concrete input for a marker that ends as it begins: under 121 the digit 1 of `["1` is delivered and taken back at `["12`. |
| JsonStreaming.HalfCharacterTakesBack | common/json-partial.cpp:212-217 | A concrete input that stops between the bytes of a character: the whole string that was delivered so far is taken back. |
| JsonStreaming.SlashDropsContent | common/chat-parser.cpp:347-354 | A member whose text was delivered as content is dropped when the reply stops behind a backslash in it. |
| Bpe.BpeTokens | convert_hf_to_gguf.py:2991-3005 | The loop computes the run that merges the leftmost pair of least rank, below the bound if there is one. |
| Bpe.BpeKeeps | convert_hf_to_gguf.py:2991-3005 | Every run keeps the text and non-empty parts and stops with no mergeable pair below the bound. |
| Bpe.LeftmostMerges | convert_hf_to_gguf.py:2991-3005 | Of several pairs with the same least entry of the table the leftmost is merged: the run is that from the parts with this pair joined, or ends at the bound. |
| Bpe.EqualBytes | convert_hf_to_gguf.py:2991-3005 | Where a pair of one byte is a token but no longer run of it is, n such bytes become n/2 pairs from the left, and one single byte at the end if n is odd. |
| Bpe.Locality | convert_hf_to_gguf.py:2991-3005 | Between two boundaries that a run over a longer text has kept, the parts are a state of the run over the enclosed text alone. |
| Bpe.ExtractMerges | convert_hf_to_gguf.py:942-951 | The extraction succeeds if and only if every token that is not one byte splits in two below its own rank; it then lists those splits in rank order. |
| Bpe.MergeListIsTable | convert_hf_to_gguf.py:942-951 | The extracted list tokenizes every byte string exactly as the rank table does without a bound. |
| Bpe.SplitsInTwoIff | convert_hf_to_gguf.py:942-951 | A token of two bytes or more never splits into fewer than two parts; it splits in two if and only if the unbounded run ends in the token with every merge before the last ranked below it. |
| Bpe.TokensAreTokens | convert_hf_to_gguf.py:942-951 | With an extracted list every token of the table is tokenized as itself. |
| Bpe.FirstListedMerges | convert_hf_to_gguf.py:942-951 | With a list the pair that is listed first is merged, where it occurs first. |
| Bpe.EqualBytesByList | convert_hf_to_gguf.py:942-951 | The extracted list tokenizes runs of one byte from the left as the table does. |
| Lora.Dense | convert_lora_to_gguf.py:41-54 | The one tensor that a factor pair stands for: B·A, with A broadcast over the leading dimensions. |
| LoraMeaning.MatrixProduct | convert_lora_to_gguf.py:41-54 | An element of the tensor that a pair of matrices stands for is the sum of the products of a row of B and a column of A. |
| LoraMeaning.PairIsProduct | convert_lora_to_gguf.py:41-54 | With leading dimensions it is so block by block, A being the same for all blocks where it has one. |
| LoraMeaning.IdentityKeeps | convert_lora_to_gguf.py:41-54 | With the identity matrix for A a pair stands for B. |
| Lora.PermuteSimulates | convert_lora_to_gguf.py:163-183 | Whenever the pair can be permuted, the result stands for the permuted product. |
| LoraMeaning.PermutedAt | convert_lora_to_gguf.py:163-174 | What permuting means: dimension k of the result is the one named by entry k, counted from the end if negative, element by element. |
| LoraMeaning.PermuteOnlyNames | convert_lora_to_gguf.py:163-174 | Any list that does not name every dimension once is an error. |
| LoraMeaning.PairPermutes | convert_lora_to_gguf.py:163-174 | The program permutes an unbatched pair exactly if every dimension is named once and the last stays or the pair is of matrices. |
| LoraMeaning.TransposedAt | convert_lora_to_gguf.py:176-183 | What transposing means: the two named dimensions, and those parts of every index, change places. |
| LoraMeaning.TransposeOnlyNames | convert_lora_to_gguf.py:176-183 | Numbers that name no dimension are an error. |
| Lora.ReshapeSimulates | convert_lora_to_gguf.py:131-161 | Whenever an unbatched pair can be reshaped, the result stands for the reshaped product; with several open dimensions, which the program replaces one by one, torch refuses to reshape the product. |
| LoraMeaning.ReshapedTo | convert_lora_to_gguf.py:131-155 | What reshaping means: the elements in their order, with -1 replaced by the number that makes the counts equal. |
| LoraMeaning.ReshapeOnly | convert_lora_to_gguf.py:131-155 | Any other shape is an error: entries below -1, several -1, and counts that do not fit. |
| LoraMeaning.PairReshapes | convert_lora_to_gguf.py:131-155 | The program reshapes an unbatched pair exactly if the product may be reshaped and its last dimension stays (with an empty last dimension, if also the counts of the rows agree). |
| Lora.IndexSimulates | convert_lora_to_gguf.py:78-113 | Indexing an unbatched pair by a tuple stands for indexing the product, unless the last two entries are integers; those are refused, but with rank 1 and a kept leading dimension the program returns a matrix where a vector was asked for. |
| LoraMeaning.PairIndexes | convert_lora_to_gguf.py:78-113 | The program indexes an unbatched pair by a tuple exactly if the product may be indexed, the tuple is not empty, and of the last two dimensions no integer takes one alone; both only with rank 1 and another dimension kept. |
| LoraMeaning.IndexedExactly | convert_lora_to_gguf.py:78-113 | A tensor is indexed exactly if there are no more entries than dimensions, and each fits its dimension. |
| LoraSlices.TupleOfSlices | convert_lora_to_gguf.py:78-113 | What a tuple of slices means: from each dimension the positions from its start, a negative one counted from the end, every step-th, in front of its stop, element by element. |
| LoraItems.ItemSimulates | convert_lora_to_gguf.py:68-77 | Indexing by one integer or slice, with A in one block or batched like B, stands for indexing the product, except exactly when a slice drops A's only block: then the factors have no product. |
| LoraSlices.SliceBlocks | convert_lora_to_gguf.py:68-77 | What a slice means: the blocks at those positions of the first dimension; a step of zero is an error. |
| LoraSlices.ChosenOnce | convert_lora_to_gguf.py:68-77 | Start, stop and step leave one choice of positions. |
| LoraSlices.OneBound | convert_lora_to_gguf.py:68-77 | `t[k:]` is all but the first k blocks and `t[:k]` the first k, `t[-k:]` the last k and `t[:-k]` all but those, for every k also beyond the size. |
| LoraSlices.CutAndCat | convert_lora_to_gguf.py:68-77 | For every integer k, `t[:k]` and `t[k:]` concatenated are t. |
| LoraSlices.IntegerBlock | convert_lora_to_gguf.py:68-77 | An integer takes its block, a negative one from the end, and fails outside. |
| LoraSlices.ListBlocks | convert_lora_to_gguf.py:68-77 | A list of integers takes their blocks in its order. |
| LoraSlices.PairSlice | convert_lora_to_gguf.py:73-77 | A slice of a pair stands for the blocks of its product at the chosen positions, unless it leaves out the only block of A and not all of B. |
| LoraSlices.PairCutAndCat | convert_lora_to_gguf.py:73-77 | For every pair and every k the front and what is behind it are pairs, and concatenated they are the pair. |
| LoraItems.EllipsisAsMeant | convert_lora_to_gguf.py:80-97 | A tuple with an ellipsis in front of some of its m other entries is spread to 2m; its entries are those that torch reads, one by one, if and only if the tensor has 2m dimensions, or more and all entries after the ellipsis are written as whole dimensions. |
| LoraItems.EllipsisTooLong | convert_lora_to_gguf.py:80-113 | With fewer than 2m dimensions the spread tuple is refused, though torch would take the original. |
| LoraItems.WholeMatrixRefused | convert_lora_to_gguf.py:80-113 | A concrete input: `[..., :, :]` on a matrix is refused, though it means the whole matrix. |
| LoraItems.ColumnsReadAsRows | convert_lora_to_gguf.py:80-97 | A concrete misreading without an error: on three dimensions `[..., :2]` asks for the first two columns and is read as the first two rows; the shapes of both are given. |
| LoraItems.TrailingEllipsis | convert_lora_to_gguf.py:79-81 | A trailing ellipsis is read as torch reads it, except that a lone one is refused. |
| LoraItems.EllipsisSimulates | convert_lora_to_gguf.py:80-113 | Where the ellipsis is read as meant, indexing the pair stands for indexing the product by what is meant. |
| LoraBatches.StackSimulates | convert_lora_to_gguf.py:199-206 | Stacking pairs stacks their products. |
| LoraMeaning.PairsStack | convert_lora_to_gguf.py:199-206 | The program stacks pairs exactly if there are any and all shapes agree. |
| LoraExpressions.CatSimulates | convert_lora_to_gguf.py:216-220 | Concatenating matrices with a common A concatenates their products. |
| LoraMeaning.PairsConcatenate | convert_lora_to_gguf.py:207-220 | The program concatenates pairs of matrices exactly if all share one A. |
| LoraBatches.CatBatches | convert_lora_to_gguf.py:211-215 | With three or more dimensions and A batched like B, concatenating both factors concatenates the products. |
| LoraExpressions.EvalSimulates | convert_lora_to_gguf.py:59-222 | Every expression of tuple indexing, reshape, permute, transpose and concatenation of matrices that evaluates on an unbatched pair evaluates on the product to what the resulting pair stands for, except the tuples and shapes named above. |
| RowLayouts.SwappedBack | convert_hf_to_gguf.py:2146-2148 | Exchanging the middle two of three nested groupings moves rows by a bijection that the opposite exchange undoes. |
| Arithmetic.QuotientIs | convert_hf_to_gguf.py:2146 | The repeated subtraction by which head sizes are computed here is the division, rounding down, of the program. |
| RowLayouts.LlamaPermuteRow | convert_hf_to_gguf.py:2143-2148 | Row k of half s of head h goes to row s of pair k of head h. |
| RowLayouts.LlamaPermuteBack | convert_hf_to_gguf.py:2143-2148 | The weights are accepted if and only if their rows divide evenly over two halves of all heads (or there is no data), and permuting with the shapes exchanged gives them back. |
| QkvLayouts.FalconRegroups | convert_hf_to_gguf.py:1823-1832 | Every row of every head of the joint weights is found at its place among all queries, all keys or all values, for every head count that divides evenly. |
| QkvLayouts.FalconRowOnce | convert_hf_to_gguf.py:1828-1832 | No two rows go to the same place: the source of a row can be computed from where it went. |
| QkvLayouts.FalconRowAll | convert_hf_to_gguf.py:1828-1832 | Every row of the result comes from some row. |
| QkvLayouts.InternSplits | convert_hf_to_gguf.py:4446-4474 | Every row of the joint weights is found in the query, key or value part, queries and keys permuted within their heads. |
| QkvLayouts.InternRowOnce | convert_hf_to_gguf.py:4459-4468 | Within a part no two rows go to the same place, and the parts have together as many rows as the joint weights. |
| QkvLayouts.PermuteOnPair | convert_hf_to_gguf.py:2143-2148 | Run on a factor pair, `permute` stands for `permute` of the product. |
| QkvLayouts.FalconOnPair | convert_hf_to_gguf.py:1823-1832 | So does the Falcon regrouping. |
| QkvLayouts.InternOnPair | convert_hf_to_gguf.py:4459-4468 | And so do the selections of InternLM2. |
| Strings.StringFindPartialStop | common/common.cpp:462-476 | The loop returns where the longest non-empty suffix of the text that begins the stop word starts. |
| Strings.StringStrip | common/common.cpp:405-415 | The two loops strip spaces from both ends. |
| Strings.StripMonotone | common/common.cpp:405-415 | Stripping a prefix of a text gives a prefix of what stripping the text gives. |
| ChatParser.ChatMsgParser.TryConsumeLiteral | common/chat-parser.cpp:94-107 | The cursor passes the literal if and only if it stands there. |
| ChatParser.ChatMsgParser.TryFindLiteral | common/chat-parser.cpp:109-131 | Finds the first occurrence, or in a partial input the place where one may have begun; the cursor moves behind it. |
| ChatParser.ChatMsgParser.TryParseReasoning | common/chat-parser.cpp:139-174 | The cursor machine computes what is shown as reasoning and as content. |
| ChatParser.ChatMsgParser.ParseReasoningThenContent | common/chat-parser.cpp:139-180 | A parser that takes the reasoning and then the rest as content shows exactly the reasoning and content the theorems are about. |
| ChatParser.SettledGrows | common/chat-parser.cpp:109-131 | What a search in a partial text passes over is a prefix of what a search from the same cursor in any extension passes over. |
| ChatParser.ReasoningNeverRetracted | common/chat-parser.cpp:139-174 | Reasoning shown for a partial reply is a prefix of the reasoning shown for every extension, partial or final, when thinking was forced open or the tags have no shadow. |
| ChatParser.NeverRetractsIff | common/chat-parser.cpp:139-174 | That is exactly when it is never taken back, for all tags: reasoning is never taken back if and only if no suffix of the start tag, read on into the end tag, hides a shorter beginning of the end tag that is more than spaces. |
| ChatParser.TagsWithoutShadow | common/chat-parser.cpp:139-174 | Tags of which no suffix of the start tag properly begins the end tag have no shadow. |
| ChatParser.ProgramTags | common/chat.cpp:1076-2297 | None of the four pairs of tags that the program uses has a shadow. |
| ChatParser.ContentStaysIff | common/chat-parser.cpp:139-180 | Content shown for a partial reply is taken back by some extension if and only if the reply stopped inside the start tag. |
| ChatContent.ReplyShown | common/chat-parser.cpp:139-180 | A reply of reasoning, the end tag, spaces and content, partial or not: apart, the stripped reasoning and the content; with reasoning in the content, the reasoning between the tags, `<think>` and `</think>` for the DeepSeek format, in front of the content, and no tags around blank reasoning. |
| ChatContent.UnclosedShown | common/chat-parser.cpp:139-180 | Without an end tag all is reasoning; in the content its closing tag is written once the reply is complete. |
| ChatContent.InContentStaysIff | common/chat-parser.cpp:139-180 | With reasoning in the content, what is shown for a partial reply is taken back by some extension if and only if the reply stopped inside the start tag, or inside the end tag behind reasoning that shows. |
| ChatContent.EndTagTakenBack | common/chat-parser.cpp:139-164 | There the closing tag is written before it has come, and any character that it lacks takes it back. |
| Base64.Encode | common/base64.hpp:80-144 | The loop writes, group by group, the letters of the six-bit groups and the padding. |
| Base64.LettersAre | common/base64.hpp:344-389 | The letters of both alphabets are those of two literal strings of 64 characters, in order. |
| Base64.SextetsAreRadix64 | common/base64.hpp:80-144 | The four six-bit groups of three bytes are the base 64 digits of their 24 bits. |
| Base64.EncodedSize | common/base64.hpp:338-341 | The encoded length is exactly `required_encode_size`. |
| Base64.Decode | common/base64.hpp:200-244 | The accumulator loop computes the decoded bytes or the error. |
| Base64.DecodeEncoded | common/base64.hpp:200-244 | Decoding inverts encoding for every byte string and both alphabets, given or detected, whatever the behavior. |
| Base64.DecodeInPlace | common/base64.hpp:294-297 | Decoding into the input's own buffer gives the same bytes or the same error: the write index stays behind the read index. |
| Base64.DecodedSize | common/base64.hpp:324-327 | The decoded length is at most `max_decode_size`. |
| Base64.LetterRoundTrip | common/base64.hpp:344-389 | The value of a letter is the six-bit group it was written for, and detection never leaves the alphabet of the text. |
| Escapes.ProcessEscapes | common/common.cpp:599-634 | The in-place loop leaves exactly the left-to-right unescape of the original text, also where `\x` falls through to the default case. |
| Escapes.LettersUnescape | common/common.cpp:604-611 | `\n`, `\r`, `\t`, both quotes and the backslash each become the one character they stand for. |
| Escapes.HexUnescapes | common/common.cpp:612-623 | `\x` and the two hexadecimal digits of a number below 256, in either case, become the character of that number. |
| Escapes.OneDigitUnescapes | common/common.cpp:612-623 | One digit behind a space or a sign is taken too, as strtol does: a minus gives the byte of the negative number. |
| Escapes.NoNumberStays | common/common.cpp:612-627 | Any other two characters leave the `\x` as it is written. |
| Escapes.PlainStays | common/common.cpp:628-630 | A character that is no backslash stays, and the rest is unescaped by itself. |
| Escapes.LastBackslashStays | common/common.cpp:599-634 | A backslash at the end stays. |
| Escapes.UnescapeJoin | common/common.cpp:599-634 | Where no backslash stands in the last three characters of the one, two texts are unescaped apart. |
| Escapes.UnescapeEscape | common/common.cpp:599-634 | Every text is the unescape of its escaped form. |
| Escapes.UnknownEscapeStays | common/common.cpp:604-628 | An unknown escape, or `\x` without two digits, is kept as it is written. |
| Lcs.CommonLcs | common/common.cpp:1242-1289 | The result is the length of a common contiguous run, and no common run is longer. |
| Lcs.EndingAtIsLongest | common/common.cpp:1258-1285 | Every common run that ends at a cell of the table is at most as long as the cell says. |
| Experts.ExpertMerger.ModifyTensors | convert_hf_to_gguf.py:2189-2220 | An arrival changes what is kept, and returns stacks or an error, as the specification says. |
| Experts.ExpertMerger.Merge | convert_hf_to_gguf.py:2199-2218 | The nested loops take all names of the block out and stack them in order, or raise an error where one is missing. |
| Experts.ExpertMerger.PrepareTensors | convert_hf_to_gguf.py:2254-2261 | The check passes if and only if nothing is left. |
| Experts.EmitsOnce | convert_hf_to_gguf.py:2189-2220 | For every interleaving in which each expected name arrives at most once, nothing is raised, and each block that received everything emitted each stack exactly once, with expert x in slot x. |
| Experts.OrderDoesNotMatter | convert_hf_to_gguf.py:2189-2220 | Histories with the same arrivals emit the same stacks. |
| Experts.LastReturns | convert_hf_to_gguf.py:2199-2220 | Stacks are returned at the arrival that completes a block, and at no other. |
| Experts.StrangerRaises | convert_hf_to_gguf.py:2199-2209 | A block that fills up with a name that is not asked for raises an error. |
| Experts.EndCheck | convert_hf_to_gguf.py:2254-2261 | The end check passes if and only if every block that received an expert tensor received all of them. |
| GgmlLoader.Vocab.Load | convert_llama_ggml_to_gguf.py:84-98 | The loop reads the items that the specification says, or raises an error. |
| GgmlLoader.TensorReader.Load | convert_llama_ggml_to_gguf.py:110-131 | Reads one tensor's fields, padding and range, or raises an error. |
| GgmlLoader.GGMLModel.Load | convert_llama_ggml_to_gguf.py:180-200 | The whole file, with its header checks, loops and feed-forward size. |
| GgmlLoader.GGMLModel.LoadTensors | convert_llama_ggml_to_gguf.py:190-194 | The loop ends; tensors are in file order and the map gives the last index of every name. |
| GgmlLoader.ReadEncodedHeader | convert_llama_ggml_to_gguf.py:145-166 | Every header that exists is read back. |
| GgmlBytes.HeaderSays | convert_llama_ggml_to_gguf.py:145-166 | Exactly the files that begin with `lmgg`, with `fmgg` and version 1, or with `tjgg` and version 1 to 3 have a header. |
| GgmlBytes.HyperparametersSay | convert_llama_ggml_to_gguf.py:59-73 | Seven little-endian numbers in their order, of which the last must be 0 to 4 or 7 to 18. |
| GgmlBytes.FrontAdmitted | convert_llama_ggml_to_gguf.py:168-188 | The file types each version admits: GGJT 3 all, GGJT 2 all but 2, 3, 4 and 7, and the others 0 and 1; a file of an admitted type is read on, any other refused. |
| GgmlBytes.ItemSays | convert_llama_ggml_to_gguf.py:84-98 | Where the text and the score of a vocabulary item stand. |
| GgmlBytes.TensorSays | convert_llama_ggml_to_gguf.py:110-131 | Where the fields and the data of a tensor stand, and exactly which records raise an error. |
| GgmlBytes.FeedForwardWritten | convert_llama_ggml_to_gguf.py:53-57 | The feed-forward size of a written file is the second dimension of its last record named `layers.0.feed_forward.w1.weight`; without such a record, or with one dimension, the file is refused. |
| GgmlLoader.ReadEncodedItems | convert_llama_ggml_to_gguf.py:84-98 | A vocabulary that was written is read back. |
| GgmlLoader.ReadEncodedRecords | convert_llama_ggml_to_gguf.py:190-194 | Tensors written one behind the other are all found, and the last ends at the end of the file. |
| GgmlLoader.RecordsKept | convert_llama_ggml_to_gguf.py:110-131 | Each has its name, dimensions, type and data; data starts are 32-aligned in GGJT; ranges do not overlap. |
| GgmlLoader.AcceptedRanges | convert_llama_ggml_to_gguf.py:180-200 | In every file that is accepted the ranges lie in order without overlap, and only the last can pass the end of the file. |
| GgmlLoader.LoadsWritten | convert_llama_ggml_to_gguf.py:180-200 | A file as it was written in any of the three formats is read back: header, hyperparameters, vocabulary and all tensors; it is refused only for its feed-forward tensor. |
| GgmlQuants.RealFileLoads | convert_llama_ggml_to_gguf.py:110-131 | With the real table of types: a file of tensors in whole blocks is read back, and each tensor is found with its fields and exactly the bytes of its blocks. |
| GgmlQuants.BlocksFit | gguf-py/gguf/constants.py:2944-2977 | A tensor of the table whose elements fill whole blocks takes exactly the bytes of those blocks. |
| GgmlQuants.TypeTable | gguf-py/gguf/constants.py:2944-2977 | For every type: the elements of a block, the bits of an element, and the bytes beside them; there are no other types. |

## Left out

- JSON library: a NUL byte as end of input, a byte order mark, numbers out of range, duplicate keys.
- JSON library: for malformed text, as opposed to truncated text, the position of an error is modelled by a scan of the rejected token; totality of healing is claimed for truncated text only.
- PartialIsCleaned: inputs with `\u` escapes are left out, since an escaped digit can put the marker into a value; that no number of the input is shown with the marker is a hypothesis, since the library chooses how it writes numbers (where it writes them as they were, AsWritten gives it).
- HealedText: the same two hypotheses; a healed key gets the number 1, so that the marker 1 is left out for keys here. PartialIsCleaned has it.
- PartialIsHealed: as HealedText.
- ArgumentsStream: extensions that stop between the bytes of a character, or behind a backslash in content, and markers that end as they begin are left out: HalfCharacterTakesBack, SlashDropsContent and BorderTakesBack show why. A path is for arguments or for content, not both. Malformed extensions are left out.
- JSON values: the members of an object are listed as they are written; the library keeps the last of several with one key. The text of a number in the dump is a parameter.
- DumpIsJson: strings are ASCII.
- DumpReadsBack: strings are ASCII, and numbers are shown as they were written.
- WholeReply: inputs that escape a digit are left out, since such a digit can put the marker into a value.
- KeyCutLands: for the first key of an object in an array the condition is that the text in front of the object can be cut back, which is not taken apart further.
- Healing marker: the program draws random numbers until one is absent from the input; here it is a parameter with the hypotheses named in each theorem.
- LoRA: exact real numbers instead of floating point; data types, device moves and lazy tensors.
- LoRA: a rank of at least one. The type of index tuples allows one list of positions: several lists, which torch broadcasts against each other, are not modelled, nor is a tensor as an index entry.
- EllipsisAsMeant: compares the entries that are read, so that `0:` for a whole dimension counts as another entry than `:`.
- EvalSimulates: concatenates matrices only, on one unbatched adapter; the batched case is CatBatches, and concatenating three or more dimensions with A batched unlike B is not claimed.
- FalconRegroups: the size of a head is a parameter, computed by the program from the hidden size.
- MergeListIsTable: the table is listed by increasing rank, each token once; the text form of a merge and the byte-to-unicode table are not modelled.
- InContentStaysIff: the DeepSeek format, which writes `</think>` whatever the end tag is, is included for that end tag only.
- Regular expressions in the chat parser, tool calls and the format-specific parsers built on it.
- ProcessEscapes: of strtol, what it does with the two characters it is given.
- EmitsOnce: tensor names are values and not parsed; the shape check of torch.stack is not modelled.
- GGMLModel.Load: a size that overflows 64 bits is an outcome of its own instead of numpy's wrap-around; scores are their four bytes.
- Logging, exceptions' texts, files and the writer of the new format.
