# Verified model of reference-counted handles, an S-expression reader, search text helpers and a BMP image processor

This project models the sequential core of a small C++ code base in Dafny and proves what that code promises.

- **Ownership** (`ownership.dfy`, `scenarios.dfy`). This is the hand-written `SharedPtr` / `WeakPtr` pair over a control block with a strong and a weak counter. The block has two kinds: a detached block that adopts a raw pointer, and an in-place block that embeds the object. The block, the strong handle and the weak handle are classes whose fields the methods update in place. Every block keeps, as ghost state, the set of strong and the set of weak handles that hold it. Its invariant `ControlBlock.Valid()` says four things:
  - each counter equals the size of its set;
  - `Destroy` has run exactly once when the strong count is 0, and never before;
  - for a block that adopted a non-null object, the object exists exactly while the strong count is positive (a block made from a null pointer never holds one);
  - the block is freed (`delete this`) exactly when both counts are 0.
  
  Every constructor, assignment, `Reset`, `Swap`, `Lock` and promotion keeps this invariant and states the exact new counts. `OwnershipScenarios` replays a few concrete lifetimes step by step as worked examples; the guarantees for all inputs are the method contracts and the block invariant.
- **Reader** (`objects.dfy`, `tokens.dfy`, `parser.dfy`, `printer.dfy`).
  - `Tokens.Scan` specifies what the tokenizer's `Next` does from each stream position. The `Tokenizer` class reads character by character, as the original does, and is proved to agree with `Scan`.
  - `Parser.ReadAt` / `ReadListAt` specify the recursive-descent reader on the table of scan results. The methods `Read` / `ReadList` work on a `Tokenizer` and are proved to agree with them.
  - `Printer` adds a printer in list notation. `ReadPrinted` proves that reading back a printed tree gives the tree.
- **Search helpers** (`search.dfy`). These cover the case-insensitive comparison, locating the n-th non-blank line, and cutting a query or a text into words. Each loop is proved against a specification function (`Lower`, `LinesBefore`, `QueryWords`, `Normalized`), and lemmas state what those functions amount to.
- **Image processor** (`console.dfy`, `bitmap.dfy`, `filters.dfy`).
  - `Console.Parse` models the command-line grouping.
  - `Bitmap.Image` models the image class: coordinate clamping, the grid, `Read`, and `Crop`.
  - `Bitmap` also models the 24-bit BMP header layout written by `Export`, with the little-endian encode/decode round trip.
  - `Filters` models the argument-count check, exception translation and chaining of `ApplyFilter` / `FilterChain`. Colours are opaque values. The floating-point filters are a parameter (`Filters.Floating`).

`wrappers.dfy` holds `Option` and `Result`. `clib.dfy` holds the C library pieces the code relies on: `isspace`, `isalpha`, `tolower`, `std::stoi`, and 64-bit `size_t` wrap-around.

## Model

| member | source | states |
|---|---|---|
| Ownership.ControlBlock.GetObject | shared/shared.h:82-87 | the in-place block's object pointer is non-null exactly while the object exists, and is then the embedded storage |
| Ownership.ControlBlock.ForPointer | shared/shared.h:52-59 | a new detached block adopts `p` with strong count 1 and weak count 0; its object exists iff `p` is not null |
| Ownership.ControlBlock.ForObject | shared/shared.h:71-81 | a new in-place block has counts 1 and 0 and its object constructed |
| Ownership.ControlBlock.Destroy | shared/shared.h:61-96 | afterwards `Exists()` is false and the in-place `GetObject()` is null; the object is torn down only if it still existed, so a second call tears nothing down; no count changes |
| Ownership.ControlBlock.IncrementRefCount | shared/shared.h:16-18 | strong count +1 with the new holder registered; weak count, object and invariant kept |
| Ownership.ControlBlock.DecrementRefCount | shared/shared.h:20-27 | strong count -1; `Destroy` runs exactly on the 1 -> 0 transition; the block is freed exactly when both counts are then 0 |
| Ownership.ControlBlock.IncrementWeakRefCount | shared/shared.h:29-31 | weak count +1, strong count and object untouched |
| Ownership.ControlBlock.DecrementWeakRefCount | shared/shared.h:33-37 | weak count -1, strong count untouched; freed exactly when both counts are 0 |
| Ownership.SharedPtr.Empty | shared/shared.h:106-108 | an empty handle: no block, null target |
| Ownership.SharedPtr.FromPointer | shared/shared.h:110-111 | adopts `p` into a fresh detached block with strong 1, weak 0 and this handle as sole owner |
| Ownership.SharedPtr.FromObjectBlock | shared/shared.h:113 | claims the in-place block's initial count; the target is the embedded object |
| Ownership.SharedPtr.Copy | shared/shared.h:115-124 | shares block and target; strong count exactly +1, weak count unchanged |
| Ownership.SharedPtr.Move | shared/shared.h:126-133 | takes block and target over, leaves the source empty, changes no count |
| Ownership.SharedPtr.Alias | shared/shared.h:138-143 | shares the source's block with strong count +1 but stores the caller's target |
| Ownership.SharedPtr.Promote | shared/shared.h:147-154 | fails with `BadWeakPtr` iff the strong count is 0, changing nothing; otherwise a new handle on the same block and target, strong count +1 |
| Ownership.SharedPtr.Reset | shared/shared.h:189-195 | with a block: strong count -1, both fields cleared, destroyed iff the count was 1, freed iff also no weak handle; without a block nothing changes |
| Ownership.SharedPtr.ResetTo | shared/shared.h:196-212 | a no-op when `p` is the current target; otherwise the old block is released exactly as by `Reset` (strong -1, weak and weak handles untouched, destroyed iff the count was 1, freed iff weak is also 0) and `p` adopted into a fresh block of counts 1 and 0, or the handle is emptied for null |
| Ownership.SharedPtr.Assign | shared/shared.h:158-168 | self-assignment changes nothing; otherwise the old block is released exactly as by `Reset` (strong -1, weak untouched, destroyed iff the count was 1, freed iff weak is also 0) and the new one gains strong +1 with its weak count untouched; both counts kept when they are the same block |
| Ownership.SharedPtr.MoveAssign | shared/shared.h:169-178 | self-assignment changes nothing; otherwise the old block is released exactly as by `Reset` (freed iff it lost its last owner and has no weak handle) and the source's block and target taken over with both counts untouched, the source left empty |
| Ownership.SharedPtr.TakeFrom | shared/shared.h:172-175 | an empty handle takes the source's block and target; no count changes; the source is empty |
| Ownership.SharedPtr.Swap | shared/shared.h:213-216 | exchanges both fields of the two handles; no count changes |
| Ownership.SharedPtr.ExchangeBlocks | shared/shared.h:213-216 | the swap of handles on different blocks: each block trades its holder, counts unchanged |
| Ownership.SharedPtr.Deref | shared/shared.h:224-228 | `operator*` on a non-null target yields it |
| Ownership.SharedPtr.UseCount | shared/shared.h:232-237 | 0 without a block, otherwise the number of strong handles holding the block, at least 1 |
| Ownership.MakeShared | shared/shared.h:251-255 | one fresh in-place block with strong 1, weak 0 and a live object, the handle pointing at it |
| Ownership.WeakPtr.Empty | weak/weak.h:13 | an empty weak handle |
| Ownership.WeakPtr.FromShared | weak/weak.h:24-36 | shares the strong handle's block and target; weak count +1, strong count unchanged |
| Ownership.WeakPtr.Copy | weak/weak.h:15-19 | weak count +1, strong count unchanged |
| Ownership.WeakPtr.Move | weak/weak.h:20-23 | takes block and target over, leaves the source empty, no count changes |
| Ownership.WeakPtr.Reset | weak/weak.h:73-79 | with a block: weak count -1, strong count untouched, freed iff it was the last handle of an expired block; both fields cleared, so a second call does nothing |
| Ownership.WeakPtr.Assign | weak/weak.h:41-51 | self-assignment changes nothing; otherwise the old block's weak count is released (-1, strong count and owners untouched, freed iff it was the last handle of an expired block) before the new one's weak count is raised with its strong count untouched |
| Ownership.WeakPtr.MoveAssign | weak/weak.h:52-61 | self-assignment changes nothing; otherwise the old block's weak count is released as by `Reset` (strong count and owners untouched, freed iff it was the last handle of an expired block) and the source's block and target taken over with both counts kept, the source left empty |
| Ownership.WeakPtr.TakeFrom | weak/weak.h:55-58 | an empty weak handle takes the source's block and target; no count changes |
| Ownership.WeakPtr.Swap | weak/weak.h:80-83 | exchanges both fields; no count changes |
| Ownership.WeakPtr.ExchangeBlocks | weak/weak.h:80-83 | the swap of handles on different blocks, counts unchanged |
| Ownership.WeakPtr.UseCount | weak/weak.h:88-93 | the number of strong handles holding the block, 0 without one |
| Ownership.WeakPtr.ExpiredExactly | weak/weak.h:94-96 | a weak handle on a block is expired exactly when the strong count is 0 or the block never held an object, and it is still counted among the weak handles |
| Ownership.WeakPtr.Lock | weak/weak.h:97-102 | expired: an empty strong handle and no count changes; otherwise a new strong handle on the same block and target whose `UseCount` is the previous count + 1 |
| OwnershipScenarios.CopyThenRelease | shared/shared.h:115-124 | made, copied and released: strong count 1, 2, 1, object alive throughout |
| OwnershipScenarios.ObserveExpiry | weak/weak.h:94-102 | a weak handle turns expired when the last strong handle lets go, `Lock` then gives an empty handle, and the block is freed only when the weak handle lets go |
| OwnershipScenarios.AliasOutlivesOwner | shared/shared.h:138-143 | an aliasing handle keeps the whole object alive after the original owner is reset |
| OwnershipScenarios.PromoteExpired | shared/shared.h:147-150 | promoting an expired weak handle fails and the count stays 0 |
| OwnershipScenarios.MoveKeepsCount | shared/shared.h:126-133 | a move leaves count 1, the source empty and the target unchanged |
| OwnershipScenarios.ResetToSameAndOther | shared/shared.h:196-203 | `Reset` to the current target keeps the shared count 2; to another target adopts it alone with count 1 |
| Objects.As | parser/object.h:56-59 | the cast gives the same object when it is an instance of the class, null otherwise (and for null); a cast to `Object` is the identity, a cast to a concrete class succeeds exactly for the object's dynamic type |
| Objects.CastTwice | parser/object.h:56-59 | casting a cast's result to the same class again changes nothing |
| Objects.Is | parser/object.h:61-64 | true iff the object is non-null and an instance of the class |
| Objects.ExactlyOneClass | parser/object.h:6-49 | every object is an `Object` and exactly one of `Number`, `Symbol`, `Cell` |
| Tokens.SameToken | parser/tokenizer.cpp:4-18 | token comparison is equality: kinds differ, symbols by name, constants by value, all dots and all quotes equal |
| Tokens.SymbolRunEnd | parser/tokenizer.cpp:76-83 | the end of the maximal run of symbol characters |
| Tokens.Scan | parser/tokenizer.cpp:31-90 | the token `Next` produces from a position, which stays within the input, consumes at least one character per token and gives no token only at the end |
| Tokens.NumberAt | parser/tokenizer.cpp:56-71 | a sign or digit and the digits after it give a token and consume at least one character |
| Tokens.Tokenizer.Init | parser/tokenizer.cpp:23 | nothing read, `char_` is EOF, no token |
| Tokens.Tokenizer.Create | parser/tokenizer.cpp:23-25 | construction scans the first token and fails exactly when that scan fails, with its error |
| Tokens.Tokenizer.ReadChar | parser/tokenizer.cpp:20-22 | one character consumed, or EOF at the end |
| Tokens.Tokenizer.Peek | parser/tokenizer.cpp:59 | the next character without consuming it, none at the end |
| Tokens.Tokenizer.Next | parser/tokenizer.cpp:31-90 | the token and position after the call are `Scan` from the position before it; a thrown error is `Scan`'s error and leaves no token |
| Tokens.Tokenizer.Classify | parser/tokenizer.cpp:41-88 | after the first non-blank character, the token or error agrees with `Scan` |
| Tokens.Tokenizer.ReadDigits | parser/tokenizer.cpp:57-62 | reads exactly the digits that follow and returns the text read |
| Tokens.Tokenizer.ReadSymbolChars | parser/tokenizer.cpp:74-83 | reads exactly the symbol characters that follow and returns the text read |
| Tokens.Tokenizer.EndOfInput | parser/tokenizer.cpp:27-40 | `IsEnd` holds exactly when only white space followed the start of the last scan; then the whole input is consumed and `GetToken` is the empty symbol |
| Tokens.Tokenizer.GetToken | parser/tokenizer.cpp:92-97 | the current token, or the empty symbol at the end |
| CLib.ToLower | search2/search.cpp:16 | upper-case letters map to lower case and all else is kept |
| CLib.Stoi | parser/tokenizer.cpp:63-70 | a successful `std::stoi` lies within `int` |
| CLib.StoiSignedDigits | parser/tokenizer.cpp:56-70 | `std::stoi` of a sign and digits: `invalid_argument` without digits, otherwise the signed value or `out_of_range` |
| Parser.LexAt | parser/tokenizer.cpp:31-90 | entry `p` of the scan table is what `Next` does from position `p` |
| Parser.Advance | parser/parser.cpp:10-17 | every call to `Next` consumes the current token, so the tokens left strictly decrease |
| Parser.ReadAt | parser/parser.cpp:4-21 | EOI and bad-token errors, atoms consume one token, brackets continue with the list; a success consumes at least one token |
| Parser.ReadListAt | parser/parser.cpp:23-51 | `)` gives null, a dotted pair needs `)`, otherwise a right-nested cell; a success consumes at least one token |
| Parser.Read | parser/parser.cpp:4-21 | the method on the tokenizer returns what `ReadAt` specifies and leaves the tokenizer in the state it specifies |
| Parser.ReadList | parser/parser.cpp:23-51 | the method agrees with `ReadListAt` in result, error and final tokenizer state |
| Printer.LexShow | parser/tokenizer.cpp:31-90 | the printed form of a well-formed tree scans into the tokens of that tree |
| Printer.ReadPrinted | parser/parser.cpp:4-51 | reading the printed form of a well-formed tree gives the tree back and exhausts the input |
| Search.LowerEqual | search2/search.cpp:11-21 | true iff the first argument lower-cased equals the second, lengths included |
| Search.LowerEqualAsymmetric | search2/search.cpp:15-20 | only the first argument is lowered: "A" matches "a" but "a" does not match "A" |
| Search.LinesReach | search2/search.cpp:36-41 | the line count passes through every value up to its final value |
| Search.FindStringBoundaries | search2/search.cpp:23-44 | with at least `n` lines ended by a newline, `[first, second)` is the line after the first `n` non-blank lines; otherwise `(0, 0)` |
| Search.SplitPieces | search2/search.cpp:49-57 | no piece between separators holds a separator |
| Search.SplitJoin | search2/search.cpp:49-57 | gluing the pieces back with their separators gives the string again |
| Search.WordsShape | search2/search.cpp:49-57 | every word is a non-empty run of letters |
| Search.LowerSetMembers | search2/search.cpp:46-63 | the set holds the lower-cased words and nothing else |
| Search.QueryWordsShape | search2/search.cpp:46-63 | every query word is a non-empty run of lower-case letters and the lower-cased form of a word of the input |
| Search.NormalizeQuery | search2/search.cpp:46-63 | returns exactly the lower-cased words of the input, as a set |
| Search.SkipNewlines | search2/search.cpp:67-73 | the position of the first non-newline character, or 0 when there is none |
| Search.TextStep | search2/search.cpp:76-94 | one loop pass keeps the line-grouping invariant |
| Search.NormalizeText | search2/search.cpp:65-102 | returns exactly the words of each line, lines without a letter left out |
| Search.NormalizedShape | search2/search.cpp:76-100 | every kept line has a word and every word is a non-empty run of letters |
| Search.NormalizedWords | search2/search.cpp:79-96 | the words, line after line, are exactly the words of the whole text in original order and case |
| Console.Parse | image_processor/Source/Console.cpp:19-44 | exactly one user argument throws the missing-path exception; otherwise the paths are `argv[1]` and `argv[2]` and the rest is grouped into `Entries` |
| Console.EntriesByName | image_processor/Source/Console.cpp:31-43 | `max(1, n)` entries for `n` filter names: one empty entry without a name, otherwise named by the filter names in order |
| Console.EntriesSpellArguments | image_processor/Source/Console.cpp:31-42 | the dropped arguments followed by each entry's name and arguments give back the arguments: nothing after the first name is lost or reordered |
| Console.DroppedHasNoName | image_processor/Source/Console.cpp:39-41 | only arguments before the first filter name are dropped |
| Console.EntriesHavePlainArguments | image_processor/Source/Console.cpp:32-41 | no entry takes a filter name as an argument |
| Bitmap.Normalize | image_processor/Source/Image.cpp:19-23 | a coordinate below the limit is kept; otherwise the result is below the limit when the limit is positive |
| Bitmap.NormalizeNegative | image_processor/Source/Image.cpp:19-23 | a negative offset wrapped to `size_t` goes to 0 |
| Bitmap.NormalizeBeyond | image_processor/Source/Image.cpp:19-23 | any other coordinate past the limit goes to `limit - 1` |
| Bitmap.NormalizeIdempotent | image_processor/Source/Image.cpp:19-23 | clamping twice is clamping once |
| Bitmap.BlankShaped | image_processor/Source/Image.cpp:31-38 | the blank grid has `height` rows of `width` default colours |
| Bitmap.Image.constructor | image_processor/Source/Image.cpp:31-38 | `height` rows of `width` default colours, dimensions recorded |
| Bitmap.Image.GetColor | image_processor/Source/Image.cpp:40-44 | an in-range coordinate reads its own cell |
| Bitmap.Image.AlwaysReadable | image_processor/Source/Image.cpp:40-44 | on a non-empty shaped image every coordinate reads an existing cell |
| Bitmap.Image.ReadsEdge | image_processor/Source/Image.cpp:40-44 | an offset past an edge reads the nearest cell on that edge |
| Bitmap.Image.SetColor | image_processor/Source/Image.cpp:46-50 | only cell `[y][x]` changes |
| Bitmap.Image.SetWidth | image_processor/Source/Image.cpp:56-58 | only the recorded width changes, not the grid |
| Bitmap.Image.SetHeight | image_processor/Source/Image.cpp:52-54 | only the recorded height changes, not the grid |
| Bitmap.Image.Read | image_processor/Source/Image.cpp:122-165 | a file that is not a bitmap leaves the image unchanged; otherwise the image is the picture decoded from the file |
| Bitmap.Image.Reshape | image_processor/Source/Image.cpp:138-146 | new dimensions; rows resized to the height and each row to the width, keeping existing cells |
| Bitmap.Image.ReadRow | image_processor/Source/Image.cpp:150-161 | one row read from its bytes, blue first, the rows before kept |
| Bitmap.Image.Crop | image_processor/Source/Filters.cpp:11-26 | a fresh image equal to `Cropped` of this one |
| Bitmap.Resized | image_processor/Source/Image.cpp:143-146 | `resize` keeps the first elements and fills the rest |
| Bitmap.Cropped | image_processor/Source/Filters.cpp:15-24 | the crop is shaped `min(w, W)` by `min(h, H)` |
| Bitmap.CropKeepsUpperLeft | image_processor/Source/Filters.cpp:18-24 | since rows are stored bottom first, the crop is the upper-left corner of the picture |
| Bitmap.CropWhole | image_processor/Source/Filters.cpp:15-24 | a crop at least as large as the image keeps it whole |
| Bitmap.CropIdempotent | image_processor/Source/Filters.cpp:15-24 | cropping twice to the same size is cropping once |
| Bitmap.Padding | image_processor/Source/Image.cpp:62 | the row padding is at most 3 and makes the row a multiple of 4 bytes |
| Bitmap.FileSize | image_processor/Source/Image.cpp:66-67 | the file size is headers plus rows with padding, when no `size_t` wrap occurs |
| Bitmap.Decode32 | image_processor/Source/Image.cpp:138-141 | four bytes, little-endian, give a value below 2^32 |
| Bitmap.DecodeEncode | image_processor/Source/Image.cpp:84-91 | decoding the four bytes written gives the value modulo 2^32 |
| Bitmap.EncodeDecode | image_processor/Source/Image.cpp:138-141 | encoding a decoded value gives the bytes back |
| Bitmap.FileHeader | image_processor/Source/Image.cpp:69-78 | 14 bytes |
| Bitmap.InfoHeader | image_processor/Source/Image.cpp:80-94 | 40 bytes |
| Bitmap.FileHeaderLayout | image_processor/Source/Image.cpp:66-78 | "BM", the file size in bytes 2-5, 54 in byte 10, zero elsewhere |
| Bitmap.InfoHeaderLayout | image_processor/Source/Image.cpp:80-94 | 40 in byte 0, width in bytes 4-7, height in bytes 8-11, 1 in byte 12, 24 in byte 14, zero elsewhere |
| Bitmap.SignatureLetsThrough | image_processor/Source/Image.cpp:129-133 | the signature test as written accepts a file starting "BA" |
| Bitmap.BitmapAccepted | image_processor/Source/Image.cpp:129-133 | every file starting "BM" passes the test as written |
| Bitmap.DecodeAsWritten | image_processor/Source/Image.cpp:138-141 | the decoding as written gives a value within `int` when defined |
| Bitmap.DecodeAsWrittenBelow | image_processor/Source/Image.cpp:138-141 | the decoding as written is defined exactly below 2^31 and agrees with the unsigned decoding there |
| Bitmap.LargeWidthUnreadable | image_processor/Source/Image.cpp:138-141 | a width of 2^31 is written faithfully but cannot be decoded as written |
| Bitmap.PixelInFile | image_processor/Source/Image.cpp:148-161 | every pixel of a file holding its announced rows lies within it |
| Bitmap.Decoded | image_processor/Source/Image.cpp:150-161 | the decoded picture has the header's dimensions and shape |
| Bitmap.HeadersRoundTrip | image_processor/Source/Image.cpp:80-141 | the headers `Export` writes pass the signature test and read back the same width and height; as written only below 2^31 |
| Bitmap.DimensionBytes | image_processor/Source/Image.cpp:84-91 | the width and height sit little-endian at bytes 18-21 and 22-25 of the file |
| Filters.KnownFilters | image_processor/Source/Filters.cpp:156-160 | the filters with an argument count are exactly the names the command line recognises |
| Filters.Rethrow | image_processor/Source/Filters.cpp:164-168 | `invalid_argument` becomes the type message, `out_of_range` escapes, a filter's own exception passes through |
| Filters.CropFilter | image_processor/Source/Filters.cpp:28-30 | succeeds only when both `std::stoi` calls do; fails only with their exceptions |
| Filters.CropNegativeKeepsSize | image_processor/Source/Filters.cpp:12-16 | the `< 0` test never fires: a negative size keeps that dimension, any other is clamped |
| Filters.Monochrome | image_processor/Source/Filters.cpp:35-41 | accepts exactly "true" and "false" and throws the monochrome message otherwise |
| Filters.NoiseFilter | image_processor/Source/Filters.cpp:62-67 | a transparency error is thrown whatever the monochrome argument; with a valid transparency, a bad monochrome value throws the monochrome message; a success is the blend with the parsed transparency and monochrome exactly when the argument is `true` |
| Filters.Dispatch | image_processor/Source/Filters.cpp:158-165 | the called filter keeps the picture shaped |
| Filters.Apply | image_processor/Source/Filters.cpp:155-169 | the intended `ApplyFilter` keeps the picture shaped |
| Filters.ArityChecked | image_processor/Source/Filters.cpp:161-163 | a wrong count fails with the count message before anything else; for crop that message comes exactly when the count is not 2 |
| Filters.MessagesDiffer | image_processor/Source/Filters.cpp:162-167 | the count and type messages differ |
| Filters.AsWrittenAgrees | image_processor/Source/Filters.cpp:158-165 | the code as written agrees with the intended one except on an unknown name without arguments, where it calls a null pointer |
| Filters.NoFilterCallsNull | image_processor/Source/Filters.cpp:161-165 | a command line without filters yields the empty entry, on which the code as written calls a null pointer; as intended it leaves the image unchanged |
| Filters.Chain | image_processor/Source/Filters.cpp:171-176 | applying filters in order keeps the picture shaped |
| Filters.ChainAppend | image_processor/Source/Filters.cpp:171-176 | applying two lists in turn is applying them joined, stopping at the first exception |
| Filters.ChainSingle | image_processor/Source/Filters.cpp:171-176 | a chain of one filter is that filter |
| Filters.ApplyFilter | image_processor/Source/Filters.cpp:155-169 | the image becomes `Apply`'s result, or on an exception is unchanged and the exception is `Apply`'s |
| Filters.ChainProgress | image_processor/Source/Filters.cpp:171-176 | a successful chain ends on `Progress`; a failing one leaves the result of the filters before the failing one, on which that filter throws |
| Filters.FilterChain | image_processor/Source/Filters.cpp:171-176 | the image becomes `Chain`'s result, each filter reading the image the previous one left; after an exception the image keeps what the filters before it produced (`Progress`) |

## Left out

- Concurrency: the counters are plain integers and the code is single-threaded.
- `EnableSharedFromThis` (shared/shared.h:258-274) holds no link to an owning block, so it has no behaviour to state.
- The converting template overloads (`Y` to `T`) collapse into one element type. Object addresses are abstract naturals.
- The destructors of `SharedPtr` and `WeakPtr` are `Reset` and are modelled by it. `delete this` is modelled by the block's `freed` flag, after which no operation may touch the block.
- `operator==` and `explicit operator bool` compare or test targets only. They are the predicates `SameTarget` and `IsSet`, without a contract of their own.
- `Ownership.SharedPtr.Promote`: requires a block. Promoting a weak handle without a block dereferences null in the original.
- `Ownership.SharedPtr.Deref`: requires a non-null target. `operator*` on null falls off the end of a function that returns a reference.
- Character classes: the C++ code classifies bytes with `isspace`, `isalpha` and `isdigit`, and `isalpha` on a negative `char` is undefined. The model's characters are Unicode code points; it covers ASCII input and treats every other character as not a letter, digit or space.
- `Tokens.Tokenizer.Next`: the stream is a whole string; the `!in_->good()` test of a failed stream is not modelled.
- The tokenizer's `std::stoi` `out_of_range` is not caught in the original. It is the `NumberOutOfRange` error.
- The quote token is produced but never parsed; the reader reports "bad token" for it.
- `Console.Parse`: requires at least the program name and one argument. With `argc == 1` the original prints help and then reads the missing `argv[1]`.
- `PrintHelp`, console messages, `main` and all file-stream I/O are left out. `Image::Export` is modelled by the header bytes it writes, not the writes.
- `Bitmap.Image.Read`: requires the file to hold both headers and every row they announce. A short file leaves stream garbage in the original. It also uses the corrected signature test and decoding (see Findings).
- Colour arithmetic and the pixel/byte conversions (`*255`, `/255`) are floating point. `Read` takes the byte-to-channel conversion as a parameter.
- `Grayscale`, `Negative`, `Sharpening`, `EdgeDetection`, `GaussianBlur` and `MatrixFilter` are floating point. They are the `Floating.filter` parameter.
- `Filters.NoiseFilter`: the transparency `std::stod` and range check, and the random blend (`rand`, `time`), are the parameters `Floating.transparency` and `Floating.blend`. Only the order of the checks, the monochrome check and what is passed to the blend are modelled.
- `Filters.KeepsShape`: `Chain` and `FilterChain` assume every floating filter returns a picture of the same shape. `GaussianBlur`'s second pass bounds its column loop by `image.GetHeight()` instead of the width (image_processor/Source/Filters.cpp:145). On a picture taller than wide it writes outside the rows, which is undefined behaviour; on a wider one it leaves the right-hand columns unblurred. The model assumes this away.
- `Filters.CropFilter`: C++ leaves the evaluation order of the two `std::stoi` arguments unspecified. The model reads the width first, so when both fail the width's exception is reported.
- `CalculateIdf`, `CalculateTf`, `CalculateTfIdf`, `SearchHelp` and `SearchEngine` (search2/search.cpp:104-163) are floating-point scoring.
- `Search.FindStringBoundaries`: the loop reads one character past the end of the view. The model reads it as the `'\0'` that ends a `std::string`.
- `Search.NormalizeText`: the unused `include_punctuation` flag is not modelled. Words are returned as strings rather than views into the text.

## Findings

| source | as written | input that shows it | evidently intended | confidence | as-written member | corrected member |
|---|---|---|---|---|---|---|
| image_processor/Source/Image.cpp:129 | the file is rejected only when byte 0 is not 'B' and byte 1 is not 'M' | a file starting "BA" is accepted | reject unless the file starts with "BM" | not executed | Bitmap.SignatureLetsThrough | Bitmap.Image.Read |
| image_processor/Source/Image.cpp:138-141 | the top header byte is multiplied by an `int`, which overflows once that byte is 128 or more | a width of 2^31, which `Export` writes as bytes 00 00 00 80 | decode an unsigned 32-bit little-endian value | not executed | Bitmap.LargeWidthUnreadable | Bitmap.HeadersRoundTrip |
| image_processor/Source/Filters.cpp:158-165 | a name the table lacks, given no arguments, passes the count check and calls a null function pointer | a command line with the two paths and no filter, which yields one entry with an empty name | leave the image unchanged | not executed | Filters.NoFilterCallsNull | Filters.ApplyFilter |
