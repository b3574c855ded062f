# XKit: line framing and password-based key derivation

This project models two parts of `io.xjar.XKit` from XJar, the encrypted-JAR tool, and proves properties of them.

- **Line framing.** `readln` reads one line from a byte stream. It returns null at end of stream and drops every carriage return (13) wherever it occurs. It stops after the first line feed (10), and if the stream ends first it returns what it has gathered, which may be empty but is not null. `writeln` writes a line followed by CR LF, and does nothing for a null line. Module `LineIO` (`line_io.dfy`) has:
  - the stream as a class `ByteInput` with a read cursor;
  - the output as a class `ByteOutput`, also used for the `ByteArrayOutputStream`;
  - `ReadLine`, a `while` loop over `read()`, proved against `ReadLn`, a scanning function over the unread bytes;
  - `WriteLine`, proved against `Frame`;
  - lemmas that describe `ReadLn` by the first line feed and by CR removal, and that prove the write/read round trip for one line and for many.
- **Key derivation.** The four `key` overloads. The 1-, 2- and 3-argument forms fill in `DEFAULT_ALGORITHM`, `DEFAULT_KEYSIZE` and `DEFAULT_IVSIZE`. The 4-argument form hashes the password with SHA-512 and seeds one `XSecureRandom` with the digest. It gets a `KeyGenerator` for the family named before the first `/` of the algorithm. It draws the key and then the IV from that one random source. It returns a `SymmetricSecureKey` holding the full algorithm string, the key size, the key and the IV.
  - Module `KeyDerivation` (`key.dfy`) keeps the platform primitives uninterpreted. They are the fields of a `Primitives<S>` value over an abstract random state `S`: the SHA-512 digest, the seeding of `XSecureRandom`, generator lookup, the size check of `init`, and `generateKey` as `(family, bits, state) -> (bytes, state')`.
  - `KeyGenerator` and `XSecureRandom` are classes. `Key` mutates one random state through two `Init`/`GenerateKey` rounds, and is proved equal to the function `Derive`.
  - Module `JavaSplit` (`split.dfy`) models `String.split` with a one-character regex and limit 0. That is how `algorithm.split("[/]")[0]` finds the family.
- `wrappers.dfy` holds `Option`/`Result` and the byte type.

Edge cases the model keeps:
- `readln` drops every CR wherever it occurs, not only before LF (`XKit.java:22-24`), so `"a\rb\n"` reads as `"ab"`.
- A non-empty algorithm made only of `/` makes `split` return an empty array, so `[0]` throws (`XKit.java:141`). The model returns `NoBaseName` for it.
- Failures come in the code's order: SHA-512 lookup (`DigestUnavailable`), then `[0]` (`NoBaseName`), then `KeyGenerator.getInstance` (`UnsupportedAlgorithm`), then each `init` (`InvalidKeySize`).

## Model

| member | source | states |
|---|---|---|
| LineIO.ByteInput.Read | src/main/java/io/xjar/XKit.java:16 | `read()` returns the byte under the cursor and advances by one, or returns -1 at the end without moving |
| LineIO.ByteOutput.Write | src/main/java/io/xjar/XKit.java:28 | writing a byte appends exactly that byte to what was written |
| LineIO.ByteOutput.WriteAll | src/main/java/io/xjar/XKit.java:40 | writing an array appends exactly its bytes |
| LineIO.ReadLine | src/main/java/io/xjar/XKit.java:15-34 | the loop returns `ReadLn` of the unread bytes and moves the cursor by exactly the bytes `ReadLn` consumed; the contents are never changed |
| LineIO.Gather | src/main/java/io/xjar/XKit.java:21-33 | the loop always returns a non-null line, consumes at most what is left and at least one byte if any is left, and adds at most one byte to the line per byte consumed |
| LineIO.ReadLn | src/main/java/io/xjar/XKit.java:15-19 | the line is null exactly when the stream is at its end, and then nothing is consumed; otherwise at least one byte is consumed, no more than remain, and the line is at most as long as what was consumed |
| LineIO.Frame | src/main/java/io/xjar/XKit.java:36-43 | `writeln` sends nothing exactly for a null line; for a line with no CR or LF, the first LF it sends is the last byte, and the bytes before that LF, CRs removed, are the line |
| LineIO.RemoveCR | src/main/java/io/xjar/XKit.java:22-24 | reference filter for the CR case: a byte value occurs in the result exactly when it occurs in the input and is not CR, and the result is never longer than the input |
| LineIO.IndexOfLF | src/main/java/io/xjar/XKit.java:25-26 | the index found is the first LF, or the end when there is none |
| LineIO.IndexOfLFAt | src/main/java/io/xjar/XKit.java:25-26 | an LF with none before it is the first LF |
| LineIO.CRLFTerminates | src/main/java/io/xjar/XKit.java:40-42 | after a plain line followed by CR LF, the first LF is the final byte and removing CRs before it gives the line back |
| LineIO.GatherStep | src/main/java/io/xjar/XKit.java:22-31 | one turn of the loop on a byte other than LF consumes it, keeps it unless it is a CR, and carries on |
| LineIO.GatherToNewline | src/main/java/io/xjar/XKit.java:21-31 | from any point of the loop, it ends at the first LF with everything before it, CRs removed, appended to the buffer |
| LineIO.GatherToEnd | src/main/java/io/xjar/XKit.java:21-33 | with no LF left, the loop runs to the end of the stream and appends everything left, CRs removed |
| LineIO.ReadLnUpToNewline | src/main/java/io/xjar/XKit.java:21-31 | if an LF lies ahead, the line is the bytes before the first LF with every CR removed, and the cursor ends just past that LF |
| LineIO.ReadLnWithoutNewline | src/main/java/io/xjar/XKit.java:21-33 | if no LF lies ahead, the line is everything left with CRs removed, non-null even when empty, and the stream is exhausted |
| LineIO.ReadLnLoneCR | src/main/java/io/xjar/XKit.java:21-33 | the input `"\r"` yields an empty line, not null, and consumes one byte |
| LineIO.ReadLnAtFirstNewline | src/main/java/io/xjar/XKit.java:21-33 | on a non-empty stream, the read is decided by the first LF in either of the two cases |
| LineIO.ReadLnIsPlain | src/main/java/io/xjar/XKit.java:22-29 | a returned line never contains byte 10 or byte 13 |
| LineIO.WriteLine | src/main/java/io/xjar/XKit.java:36-43 | a null line leaves the output unchanged; otherwise the output grows by exactly the line, then 13, then 10 |
| LineIO.FrameRoundTrip | src/main/java/io/xjar/XKit.java:15-43 | reading what `writeln` sent for a line with no CR or LF, followed by anything, returns that line and leaves exactly the following bytes unread |
| LineIO.LinesRoundTrip | src/main/java/io/xjar/XKit.java:15-43 | writing plain lines one after another, then reading until null, returns the same lines in order |
| LineIO.WriteThenRead | src/main/java/io/xjar/XKit.java:15-43 | a line passed through `WriteLine` and then `ReadLine` on real stream objects comes back unchanged, with the rest of the stream unread |
| JavaSplit.Pieces | src/main/java/io/xjar/XKit.java:141 | there is at least one piece, no piece contains the separator, and there is a single piece exactly when the separator does not occur |
| JavaSplit.JoinPieces | src/main/java/io/xjar/XKit.java:141 | joining the pieces with the separator gives back the original string |
| JavaSplit.DropTrailingEmpty | src/main/java/io/xjar/XKit.java:141 | the result is a prefix of the pieces, its last piece is not empty, and every piece dropped is empty |
| JavaSplit.Split | src/main/java/io/xjar/XKit.java:141 | no element contains the separator, and the last element is non-empty unless the result is the input alone |
| JavaSplit.BaseName | src/main/java/io/xjar/XKit.java:141 | `split("[/]")[0]` is missing exactly for a non-empty string of `/` only; otherwise it is a prefix of the algorithm with no `/`, followed in the algorithm by `/` or by nothing, so it is the text before the first `/` |
| JavaSplit.PiecesFirstIsPrefix | src/main/java/io/xjar/XKit.java:141 | the first piece is a prefix of the string, followed in it by the separator or by nothing |
| JavaSplit.SplitEmpty | src/main/java/io/xjar/XKit.java:141 | `split` returns an empty array exactly for a non-empty string made only of the separator |
| JavaSplit.SplitJoin | src/main/java/io/xjar/XKit.java:141 | joining the split elements gives a prefix of the input, and what is left over consists only of separators |
| JavaSplit.BaseNameIsPrefix | src/main/java/io/xjar/XKit.java:141 | `split("[/]")[0]` is the text before the first `/`; it throws exactly when the algorithm is non-empty and made only of `/` |
| JavaSplit.BaseNameOfTransformation | src/main/java/io/xjar/XKit.java:141 | `"AES/CBC/PKCS5Padding"` selects the family `"AES"` |
| JavaSplit.BaseNameEdgeCases | src/main/java/io/xjar/XKit.java:141 | `"//"` has no family, `""` has the empty family, and `"/AES"` has the empty family |
| KeyDerivation.Draws | src/main/java/io/xjar/XKit.java:142-146 | reference definition of successive key generations from one advancing random state, one draw per size; the contract gives only the count, and `DrawsAt` gives the state each draw starts from |
| KeyDerivation.DrawsAppend | src/main/java/io/xjar/XKit.java:142-146 | drawing one list of sizes and then another, from where the first left the state, is the same as drawing both lists in one sequence |
| KeyDerivation.DrawsAt | src/main/java/io/xjar/XKit.java:142-146 | the draw at place `k` starts from the random state left by the first `k` draws |
| KeyDerivation.Key | src/main/java/io/xjar/XKit.java:138-148 | the 4-argument `key`, with one generator object and one random object whose state both draws advance, returns exactly `Derive` of its four inputs and the primitives |
| KeyDerivation.Derive | src/main/java/io/xjar/XKit.java:138-148 | a missing SHA-512 is reported before anything else; `NoBaseName` comes exactly when SHA-512 exists and `[0]` throws; a record keeps the full algorithm string and the key size, and exists only for a family with a generator that accepts both sizes |
| KeyDerivation.KeyFromPassword | src/main/java/io/xjar/XKit.java:126-128 | `key(pw)` returns the same as `key(DEFAULT_ALGORITHM, DEFAULT_KEYSIZE, DEFAULT_IVSIZE, pw)` |
| KeyDerivation.KeyWithAlgorithm | src/main/java/io/xjar/XKit.java:130-132 | `key(a, pw)` returns the same as `key(a, DEFAULT_KEYSIZE, DEFAULT_IVSIZE, pw)` |
| KeyDerivation.KeyWithKeysize | src/main/java/io/xjar/XKit.java:134-136 | `key(a, k, pw)` returns the same as `key(a, k, DEFAULT_IVSIZE, pw)` |
| KeyDerivation.KeyIsReproducible | src/main/java/io/xjar/XKit.java:138-148 | two derivations from the same inputs, each with its own fresh objects, give the same result or the same error |
| KeyDerivation.DeriveSucceeds | src/main/java/io/xjar/XKit.java:139-146 | derivation succeeds exactly when SHA-512 exists, the algorithm has a family, that family has a generator, and both the key size and the IV size are accepted |
| KeyDerivation.DeriveRecord | src/main/java/io/xjar/XKit.java:142-147 | the record keeps the full algorithm string and the key size; the key and IV are the first and second draws from the one state seeded by the password's digest, and the IV draw starts from the state the key draw left |
| KeyDerivation.KeyIsFirstDraw | src/main/java/io/xjar/XKit.java:142-144 | the key is the first draw from the seeded state, whatever is drawn after it |
| KeyDerivation.DeriveIgnoresIvSize | src/main/java/io/xjar/XKit.java:145-147 | the IV size is not stored, and it changes neither the algorithm, nor the key size, nor the key bytes |
| KeyDerivation.DeriveUsesFamilyOnly | src/main/java/io/xjar/XKit.java:141-147 | two algorithm strings with the same family give the same outcome, except that each record stores its own algorithm string |
| KeyDerivation.DeriveDependsOnDigest | src/main/java/io/xjar/XKit.java:139-142 | there is no salt or other input: two passwords with the same digest give the same outcome |
| KeyDerivation.DeriveSizes | src/main/java/io/xjar/XKit.java:143-147 | if the generator returns `size / 8` bytes for each size it accepts, the key has `keysize / 8` bytes and the IV has `ivsize / 8` bytes |
| KeyDerivation.DeriveSlashesOnly | src/main/java/io/xjar/XKit.java:141 | an algorithm made only of `/` fails where `[0]` is taken, before any generator is looked up |
| KeyDerivation.XSecureRandom.constructor | src/main/java/io/xjar/XKit.java:142 | a new random source starts in the state its seed determines |
| KeyDerivation.KeyGenerator.GetInstance | src/main/java/io/xjar/XKit.java:141 | a generator for a family the platform supports, not yet initialised |
| KeyDerivation.KeyGenerator.Init | src/main/java/io/xjar/XKit.java:143 | an accepted size is stored together with the random source; a rejected size changes nothing and is reported |
| KeyDerivation.KeyGenerator.GenerateKey | src/main/java/io/xjar/XKit.java:144 | returns the primitive's key bytes for the family and size, and moves the random source to the state the primitive leaves |

## Left out

- `transfer` (all four overloads), `delete` and both `close` methods, `XKit.java:45-124`. They are stream-copy, file-system and resource-closing plumbing whose outcome depends on foreign objects.
- The `IOException`s that the underlying streams may throw in `readln` and `writeln`. The model's streams never fail.
- The internals of SHA-512, `XSecureRandom`, `KeyGenerator` and `SecretKey.getEncoded`. They are uninterpreted fields of `Primitives`. The probabilistic claims are not stated: the key differs from the IV, and different passwords give different keys.
- `password.getBytes()` uses the platform's default charset. The model takes the password as already-encoded bytes.
- The values of `DEFAULT_ALGORITHM`, `DEFAULT_KEYSIZE` and `DEFAULT_IVSIZE`. `XConstants` is not part of this model, so they are the fields of an `XConstants` parameter.
- `NullPointerException` for a null `algorithm` or `password`. Strings in the model are never null.
- KeyDerivation.KeyGenerator.GetInstance: its precondition stands for `getInstance` throwing on an unknown family. `Key` checks `hasGenerator` first and returns `UnsupportedAlgorithm` in that case.
- KeyDerivation.KeyGenerator.GenerateKey: requires a prior `Init`. Java's `generateKey` would fall back to provider defaults, but `XKit.key` always initialises first.
- KeyDerivation.DeriveSizes: states the key and IV lengths only under the assumption that the generator returns `size / 8` bytes. The length is decided by the foreign primitive.
- The key and IV sizes are Java `int`s. The code does no arithmetic on them, so the model uses unbounded integers.
