# tunnel client core, modelled in Dafny

The tunnel client (`main.go`) reads an identity token and fetches an
AES-encrypted JSON payload. It decrypts the payload with a key derived from
the identity. It then renders an INI configuration for the tunnelling
library by filling the placeholders of a fixed template, and names the
session with a random six-character string. This project models the pure
and loop-based parts of that pipeline and proves what they promise:

- **GoStrings / GoStrconv** model `strings.Index` and `strings.Replace`,
  with `n = 1` (`ReplaceFirst`) and `n = -1` (`ReplaceAll`). They also model
  `strconv.Itoa`. These are the library semantics that `replaceValues`
  relies on.
- **ConfigRender** models `ConfigTemplate` and `replaceValues`, the chain of
  seven replacements in source order. It also gives an independent
  line-by-line description of the intended configuration (`ConfigLines`,
  `Rendered`). The main theorem is that the chain produces exactly that
  configuration whenever no inserted value contains `%`. Read back line by
  line, the output is exactly those lines when no value contains a newline
  either. A further lemma shows that the order of the chain matters: an
  address that is itself `%name%` is rewritten by the later name step.
- **TextLines** describes how text divides into newline-separated lines.
  Joining a non-empty list of lines, none holding a newline, and then
  splitting the text gives the lines back.
- **Pkcs7** models `PKCS7UNPadding` as written. No check is made on the
  last byte, and a byte larger than the buffer is the Go slice panic
  (`None`). Beside it sit PKCS #7 padding (section 6.3 of RFC 5652), the
  round trip, and a checked unpadding that is proved inverse to padding.
  PKCS #7 only ever produces a pad length between 1 and the block size, so
  a careful decoder rejects anything else. The code validates nothing, and
  the model follows the code, so `Unpad` takes the byte on trust. The
  validated variant is `UnpadChecked`; see Findings.
- **KeyDerivation** models the key step of `decodeAES`: `%x` of the
  64-byte SHA-512 digest, cut to 32 characters. SHA-512 is a function
  parameter.
- **RandomGen** models `randomString`, `genBytes` and its wrappers.
  `randomString` and `genBytes` are methods that fill a fresh array in a
  loop; the wrappers are methods that call `genBytes`. `rand.Intn` is an
  oracle: the sequence `draws` of its answers, each below its bound.

## Model

| member | source | states |
|---|---|---|
| GoStrings.IndexFindsFirst | main.go:200 | `strings.Index` gives -1 exactly when the pattern occurs nowhere; otherwise it gives a position where the pattern occurs, with no earlier occurrence |
| GoStrings.ReplaceFirstReplacesLeftmost | main.go:200-202 | a replacement with `n = 1` leaves text without an occurrence unchanged; otherwise it substitutes the leftmost occurrence and keeps everything around it |
| GoStrings.ReplaceAllReplacesLeftmost | main.go:204 | a replacement with `n = -1` leaves text without an occurrence unchanged; otherwise it substitutes the leftmost occurrence and resumes after it, without rescanning the inserted text |
| GoStrconv.NatToDecimal | main.go:201 | the decimal form of a natural number is non-empty, all digits, with no leading zero |
| GoStrconv.ItoaRoundTrip | main.go:201 | parsing what `strconv.Itoa` prints gives the number back, so distinct ports print differently |
| GoStrconv.ItoaShape | main.go:206 | `strconv.Itoa` prints a `-` exactly for negative numbers and digits after it, never a `%` or a newline |
| ConfigRender.TemplateText | main.go:25-39 | the template's text between its placeholders, line for line: `[common]`, the server fields, `protocol = kcp`, `log_level`, `pool_count = 2`, a blank line, `[http-%name%]`, `type = http`, the local fields, the two flags and `subdomain = %name%`; no `%` outside a placeholder |
| ConfigRender.FillServerLines | main.go:200-202 | with `%`-free server address, port and token, the first three replacements fill the server address, server port and token, each in its own line, and leave the rest of the template as it was |
| ConfigRender.FillName | main.go:204 | after a `%`-free prefix and with a `%`-free name, the all-occurrence replacement fills both `%name%` sites, the section header and the subdomain, and passes over the other placeholders |
| ConfigRender.FillLocalLines | main.go:205-212 | after a `%`-free prefix and with `%`-free values, the last three replacements fill the local address, the local port and the log level |
| ConfigRender.ReplaceValuesFilled | main.go:199-215 | with `%`-free values, the output is the template with every placeholder replaced by its own value |
| ConfigRender.FilledIsRendered | main.go:25-39 | the filled template is the intended configuration: fifteen lines, `[common]` with the server fields and log level, then `[http-<name>]` with the local fields and `subdomain = <name>` |
| ConfigRender.ReplaceValuesRendered | main.go:199-215 | with `%`-free values, `replaceValues` returns exactly the intended configuration text |
| ConfigRender.ReplaceValuesLines | main.go:199-215 | with values free of `%` and of newlines, the output read line by line is exactly the intended fifteen lines, so every key appears once with its value |
| ConfigRender.NoPlaceholderLeft | main.go:199-215 | with `%`-free values, no `%` (no placeholder) is left in the output |
| ConfigRender.LevelLine | main.go:208-212 | the intended log level line reads `trace` exactly when debug is set, and `error` exactly when it is not |
| ConfigRender.LogLevelLine | main.go:208-212 | with values free of `%` and of newlines, the output's sixth line is `log_level = trace` exactly when debug is set, and `log_level = error` exactly when it is not |
| ConfigRender.ExampleLines | main.go:199-215 | with server `s.example.com`, local port 8080 and values free of `%` and of newlines, the output's second line is `server_addr = s.example.com` and its twelfth `local_port = 8080` |
| ConfigRender.AddressPlaceholderRewritten | main.go:200-204 | the chain runs in order: with a `%`-free name, token and local address, a server address equal to `%name%` is rewritten by the later name step, so the output is the configuration whose address is the session name |
| Pkcs7.Unpad | main.go:190-197 | an empty buffer comes back unchanged; otherwise the result is the prefix of length `len - n`, with `n` the last byte, and the call fails (the slice panics) exactly when `n > len` |
| Pkcs7.UnpadPad | main.go:195-196 | unpadding as written recovers every padded plaintext |
| Pkcs7.UnpadChecked | main.go:190-197 | an empty buffer comes back unchanged, as in the code; a non-empty one is accepted exactly when it is well padded, and then the pad is stripped |
| Pkcs7.UnpadCheckedPad | main.go:195-196 | checked unpadding accepts every padded plaintext and recovers it |
| Pkcs7.PadUnpadChecked | main.go:195-196 | whatever non-empty buffer checked unpadding accepts is the padding of its result, so the two are inverse |
| Pkcs7.CheckedAgreesWithUnpad | main.go:195-196 | where the check passes, unpadding as written gives the same bytes |
| Pkcs7.ZeroPadPassesThrough | main.go:195-196 | a last byte of 0 passes the whole buffer through unchanged, which the check rejects |
| Pkcs7.OverlongPadPanics | main.go:195-196 | a last byte larger than the buffer is outside what unpadding can do, and the check rejects it |
| Pkcs7.UnpadExamples | main.go:190-197 | `[1, 2, 0]` comes back whole, `[5]` panics, and `[9, 3, 2]` loses two bytes that are not valid padding |
| KeyDerivation.Hex | main.go:179 | `%x` prints two lower-case hex digits per byte |
| KeyDerivation.UnhexHex | main.go:179 | reading the hex back gives the digest again |
| KeyDerivation.HexInjective | main.go:179 | different digests print differently |
| KeyDerivation.HexPrefix | main.go:179-180 | the first `2n` hex digits are the hex of the first `n` bytes |
| KeyDerivation.DeriveKey | main.go:179-180 | the key is 32 bytes, each the ASCII code of a lower-case hex digit: the hex of the digest's first 16 bytes |
| KeyDerivation.SameKeyIffSameDigestHalf | main.go:179-180 | two identities get the same key exactly when their digests agree on the first 16 bytes, so the key depends on the identity only through its digest |
| RandomGen.DefaultLettersAlnum | main.go:57 | the default alphabet has 36 characters, all in `a-z0-9` |
| RandomGen.RandomString | main.go:217-232 | the string has length `n`, and its `i`-th character is the letter picked by the `i`-th draw from the first alphabet given, or from the default one |
| RandomGen.SessionName | main.go:75 | the session name has six characters, each from `a-z0-9` |
| RandomGen.GenBytes | main.go:234-246 | the result has exactly `bytes` bytes: the identity's bytes first, cut to length, then `draw + 1`, always between 1 and 254 |
| RandomGen.Gen16Bytes | main.go:248-250 | 16 bytes; the identity as prefix, then no zero byte |
| RandomGen.Gen24Bytes | main.go:252-254 | 24 bytes; the identity as prefix, then no zero byte |
| RandomGen.Gen32Bytes | main.go:256-258 | 32 bytes; the identity as prefix, then no zero byte |
| RandomGen.RandomBytes | main.go:260-262 | `bytes` bytes, each one more than its draw, so never 0 |

## Left out

- Network I/O is not modelled: `httpGet`, `checkVersion` and `fetchConfig` (main.go:81-112, 149-176) fetch over HTTP and use `os.Exit` as their error path.
- `readIdentity` (main.go:130-147) reads a file and trims the newline. The identity enters the model as a byte sequence.
- `parseFlags` and the global `config` (main.go:56-60, 114-128) are library flag parsing. The configuration is passed as a `UserConfig` value instead.
- The AES-CBC decryption, base64 decoding and SHA-512 inside `decodeAES` (main.go:181-186) are standard-library code whose bodies are not visible. SHA-512 appears only as the parameter `sum512`, a function returning 64 bytes. The rest of `decodeAES` is not composed.
- `init` and `main` (main.go:62-79) are wiring: `rand.Seed`, `crypto.DefaultSalt` and printing. Only the session name, `randomString(6)`, is modelled (`SessionName`).
- cmd/cmd.go is not part of this model. It holds the library calls, signal handling and DNS override.
- Randomness is modelled only as a range: the oracle stands for any sequence of answers, and the distribution is not modelled.
- GoStrings.ReplaceAll: Go's special case for an empty pattern is excluded, because every pattern in `replaceValues` is non-empty.
- GoStrings.Index: its specification is stated in the lemmas `IndexFindsFirst`, `IndexOfFirst` and `IndexOfNone` rather than in its own `ensures`.
- Go strings are byte strings; the model works on `seq<char>`. All template text and patterns are ASCII, so each pattern matches at the same place in the byte string and in the character sequence, and the replaced text is the same; byte offsets and character offsets themselves differ once a value holds a multi-byte character. Invalid UTF-8 in a value is not modelled.
- `string(b)` in `randomString` converts runes. Go's replacement of invalid runes (for example surrogates in a custom alphabet) is not modelled.
- Go's `int` is 32 or 64 bits wide depending on the platform; the ports are unbounded integers here, which agrees with Go on every value that fits.
- ConfigRender.ReplaceValuesRendered: proved only when no inserted value contains `%`. Otherwise only the case of a server address equal to `%name%` is characterized (`AddressPlaceholderRewritten`).
- ConfigRender.ReplaceValuesLines: stated for values without newlines. A newline inside a value adds lines, which is not characterized.
- ConfigRender.LogLevelLine: stated for values free of `%` and of newlines. A `%` inside a value can capture a later placeholder (a token `%log_level%` is filled in line 4 and line 6 keeps its placeholder), and a newline shifts the line numbers. For `%`-free values that may hold newlines, `ReplaceValuesRendered` and `LevelLine` still give the log level line of the intended text.
- ConfigRender.ExampleLines: stated for values free of `%` and of newlines, for the same two reasons: a `%` in a value can capture a later placeholder, and a newline shifts the line numbers.
- RandomGen.RandomString: an empty custom alphabet, where Go's `rand.Intn(0)` panics, leaves no oracle satisfying `Draws` for `n > 0`, so that panic is excluded rather than modelled. It cannot arise from `randomString(6)` in `main`. The length `n` is a `nat`, so the panic of `make` on a negative size is not modelled either.
- RandomGen.GenBytes: sizes are `nat`, so the panic of `make` on a negative size is not modelled. The wrappers only pass 16, 24 and 32.

## Findings

| source | as written | input that shows it | evidently intended | confidence | as-written member | corrected member |
|---|---|---|---|---|---|---|
| main.go:195-196 | the last byte is used as the pad length without any check | `[1, 2, 0]` is returned whole as plaintext; `[5]` makes the slice panic; for `[9, 3, 2]` two bytes that are not valid padding are dropped | reject a pad length of 0 or above the block size (and so above the length), and pad bytes that disagree, as PKCS #7 requires; an empty buffer still passes through unchanged | not executed | Pkcs7.UnpadExamples | Pkcs7.UnpadChecked |
