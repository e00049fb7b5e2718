# Portfolio page logic, modelled in Dafny

This project models the logic of a personal portfolio site: two browser scripts, `script.js` (the main page) and `script2.js` (a terminal-style page). It proves properties of that model. The DOM, timers and the host's cryptography are not modelled. What remains:

- **The password cipher tool** (`encryptText` / `decryptText`), in `cipher_tool.dfy`.
  - A key is derived with PBKDF2. It has 100000 iterations of SHA-256 as in section 5.2 of RFC 8018, and a fresh 16-byte salt.
  - The text is sealed with AES-GCM-256 under a fresh 12-byte IV.
  - `salt ‖ iv ‖ ciphertext` is written into one byte buffer, one part at a time.
  - The buffer is shown as base64 text.
  - Decryption decodes the text, slices the buffer at 16 and 28, derives the key again and opens the ciphertext.
  - `btoa`/`atob` are in `base64.dfy`. They follow section 4 of RFC 4648 and the forgiving-base64 decode of the HTML standard.
  - The host's `crypto.subtle` is a `Provider` value holding three functions. The random salt and IV are inputs.
- **The theme cycle** of `toggleTheme` and the `data-theme` attribute `applyTheme` sets (`theme.dfy`).
- **`utils.clamp`** (`utils.dfy`).
- **The project-filter predicate** (`project_filter.dfy`).
- **The active-section search** of `initNavigation` (`navigation.dfy`).
- **The XOR-15 e-mail decoder** (`email_decoder.dfy`).
- **The contact-form checks** (`contact_form.dfy`). The address regular expression `^[^\s@]+@[^\s@]+\.[^\s@]+$` is stated as a predicate with a witness split. It is proved equivalent to a search-free test.
- **The two pixel loops of the steganography scan** (`stego.dfy`).
- **The terminal page** of `script2.js` (`terminal.dfy`):
  - the command table;
  - the Enter-key dispatcher, modelled as a pure `Classify` of the trimmed line into an `Action`, and the `Terminal` class, whose `ShowAction` and `ApplyAction` carry that action out on the page's output and theme fields;
  - the theme restore at page load.

`js_strings.dfy` holds the JavaScript string built-ins these rely on: `trim`, `split` on one character, `startsWith`. `indexOf`, shared by the theme cycle and the strings, is in `common.dfy`.

Functions are used where the source computes values. Classes with `modifies` clauses are used where it updates state in place:

- `state.theme`;
- `state.currentSection` and the navigation dots;
- the terminal's output, body class, style and local storage.

Arrays are used where it fills a buffer in place: the `combined` buffer and the noise map. The state-changing methods are each proved equal to a specification function on the old state. The properties are lemmas about those functions.

`decryptText` does not check the decoded length. A buffer shorter than 28 bytes is not rejected before a key is derived: it gives short slices, and the key is still derived and the cipher still called. The model does the same (`CipherTool.Unpack`). Such a buffer still ends in the generic failure message, because its ciphertext is shorter than the cipher's tag (`CipherTool.ShortBufferFails`).

## Model

| member | source | states |
|---|---|---|
| Base64.ValueOf | script.js:750 | every alphabet character has a 6-bit value, and that character is the encoding of the value |
| Base64.Encode | script.js:729 | base64 text of n bytes has 4·⌈n/3⌉ characters, each from the RFC 4648 alphabet or `=` |
| Base64.Btoa | script.js:729 | `btoa` fails exactly when some character is 256 or above; otherwise it gives the base64 text of the character codes |
| Base64.Atob | script.js:750 | `atob` succeeds exactly when, after whitespace and padding are removed, the length is not 1 mod 4 and every character is in the alphabet; its result is a binary string |
| Base64.BinaryString | script.js:729 | `String.fromCharCode(...bytes)` gives one character per byte, with the byte as its code |
| Base64.CharCodes | script.js:750 | the char-code map gives one byte per character, equal to its code |
| Base64.DecodeEncodeUnpadded | script.js:729-750 | decoding the unpadded base64 characters of any byte sequence gives back the bytes, and their count is never 1 mod 4 |
| Base64.DecodeEncode | script.js:729-750 | `atob` of the padded base64 text of any bytes returns their binary string |
| Base64.BytesRoundTrip | script.js:729-750 | bytes → binary string → `btoa` → `atob` → char codes gives back the bytes, and neither step fails |
| Base64.AtobBtoa | script.js:729-750 | `atob(btoa(s)) == s` for every binary string |
| Base64.EncodeTestVectorsShort | script.js:729 | the RFC 4648 section 10 vectors "", "f", "fo", "foo" encode to "", "Zg==", "Zm8=", "Zm9v" |
| Base64.EncodeTestVectorsPartial | script.js:729 | the RFC 4648 section 10 vectors "foob", "fooba" encode to "Zm9vYg==", "Zm9vYmE=" |
| Base64.EncodeTestVectorFull | script.js:729 | the RFC 4648 section 10 vector "foobar" encodes to "Zm9vYmFy" |
| CipherTool.SetAt | script.js:725-727 | `TypedArray.set(src, offset)` writes `src` at `offset` and leaves every other element as it was |
| CipherTool.Pack | script.js:724-727 | the new buffer holds exactly salt, then IV, then ciphertext |
| CipherTool.Slice | script.js:752-754 | `slice(start, end)` clamps both ends to the length; each element is the one at `start` plus its index |
| CipherTool.Unpack | script.js:752-754 | the three slices concatenate back to the buffer; salt and IV hold at most 16 and 12 bytes; the ciphertext is empty exactly when the buffer has at most 28 bytes |
| CipherTool.UnpackPacked | script.js:724-754 | slicing a packed buffer at 0:16, 16:28 and 28: recovers exactly the salt, IV and ciphertext written |
| CipherTool.EncryptOutcome | script.js:682-729 | an empty text or password shows "Please enter both text and password"; otherwise an artifact is shown |
| CipherTool.EncryptText | script.js:677-733 | the imperative encryption: guard, key derivation, cipher call, buffer filled in place, base64 text; shows exactly `EncryptOutcome` |
| CipherTool.DecryptText | script.js:735-788 | an empty text or password shows its own prompt; otherwise the result is the plaintext or "Decryption failed: Invalid password or corrupted data", never an artifact |
| CipherTool.RoundTrip | script.js:700-782 | if opening inverts sealing, decrypting an artifact with its password gives back the plaintext |
| CipherTool.ArtifactLayout | script.js:724-729 | the artifact decodes to a buffer of 28 bytes plus the sealed text: salt at [0,16), IV at [16,28), the sealed text after them |
| CipherTool.ArtifactLength | script.js:724-729 | the artifact has 4·⌈(28 + s)/3⌉ characters for a sealed text of s bytes; with AES-GCM's 16-byte tag that is at least 60 |
| CipherTool.MissingInputTouchesNoCrypto | script.js:682-743 | with an empty text or password, the outcome of both operations does not depend on the crypto provider |
| CipherTool.MalformedTextTouchesNoCrypto | script.js:750 | text that is not base64 fails with the generic message, whatever the provider |
| CipherTool.FailuresLookAlike | script.js:785-786 | every decryption failure after the guard shows the same message, whatever its cause |
| CipherTool.ShortBufferFails | script.js:752-786 | a buffer shorter than salt + IV + tag fails with the generic message, though no length is checked |
| Common.IndexOf | script.js:58 | `indexOf` gives the first index holding the value, or -1 exactly when the value is absent; the same search finds the separator inside `split` and the '@' of the address test |
| Theme.NextTheme | script.js:57-59 | auto → light → dark → auto; any unlisted value moves to "auto"; the result is always listed |
| Theme.DataThemeAttribute | script.js:46-54 | the attribute is set, to the theme itself, exactly for "light" and "dark"; otherwise it is removed |
| Theme.ToggleCycle | script.js:56-64 | three toggles return to a listed theme; from any value, the fourth toggle equals the first |
| Theme.ThemeState.constructor | script.js:3 | the initial theme is the stored one when it is set and non-empty, else "auto"; the attribute is still the markup's |
| Theme.ThemeState.Init | script.js:1219-1221 | `init` applies the theme held in state: the attribute becomes `DataThemeAttribute` of it; theme and storage stay |
| Theme.ThemeState.ToggleTheme | script.js:56-64 | the next theme is the one kept in state, stored and applied |
| Utils.Clamp | script.js:42 | the result lies within a non-empty [min, max]; a value already inside is returned unchanged; bounds the wrong way round give `max` |
| ProjectFilter.ShouldShow | script.js:486-487 | a card is shown when the filter is "all" or one of the fields of the card's category list split at spaces (its meaning without `split` is `ShouldShowIff`) |
| ProjectFilter.ShouldShowIff | script.js:486-487 | a card shows exactly when the filter is "all", or the filter is a space-free word bounded in the category list by spaces or ends |
| ProjectFilter.ShouldShowEdgeCases | script.js:487 | "all" shows every card; a filter holding a space shows nothing unless it is "all" |
| Navigation.LastReached | script.js:291-300 | the backward search finds the last section whose top the reading line has passed; no later section is passed; -1 when none is |
| Navigation.LastReachedInOrder | script.js:291-293 | with sections in page order, section k is at or before the one found exactly when the line has passed its top |
| Navigation.NavState.constructor | script.js:5 | `state.currentSection` starts at "hero" |
| Navigation.NavState.UpdateActiveNav | script.js:288-300 | when a section is reached, it becomes current and exactly the dots targeting it are active; otherwise nothing changes |
| EmailDecoder.CodeUnits | script.js:984 | one UTF-16 code unit per character of a BMP string, each the character's code as `charCodeAt` gives it |
| EmailDecoder.Decode | script.js:981-985 | the decoding loop gives one unit per input unit, each the input unit XOR the key |
| EmailDecoder.XorTwice | script.js:984 | XOR-ing a code unit twice with the same key gives it back |
| EmailDecoder.DecodeTwice | script.js:983-985 | decoding keeps the length, and decoding twice with one key gives back the input |
| EmailDecoder.EncodedHasNoO | script.js:979 | the stored constant holds no unit 79 ('O'), the only one that decodes to '@' under key 15 |
| EmailDecoder.DecodedConstantHasNoAt | script.js:979-980 | the stored constant decodes to 28 units, none of them '@' |
| ContactForm.Alert | script.js:1013-1030 | an alert is shown at once exactly for a form that is not submitted: the bot, missing-fields and invalid-address texts |
| ContactForm.MatchesEmailPattern | script.js:1028 | the regular expression `^[^\s@]+@[^\s@]+\.[^\s@]+$`: some '@' and some later '.' cut the address into three non-empty runs free of whitespace and '@' |
| ContactForm.ValidEmailMatches | script.js:1028-1029 | every address the search-free test accepts matches the regular expression |
| ContactForm.MatchIsValidEmail | script.js:1028-1029 | every address the regular expression matches passes the search-free test |
| ContactForm.IsValidEmailIff | script.js:1028-1029 | the search-free test and the regular expression accept the same addresses |
| ContactForm.HandleFormSubmit | script.js:1012-1032 | a filled honeypot means "Bot detected!"; otherwise a blank trimmed field means "fill in all fields"; a submitted form carries the three trimmed, non-empty values |
| ContactForm.EmailCheckIsThePattern | script.js:1028-1032 | after the first two checks, the address is refused exactly when the trimmed value does not match the pattern |
| Stego.LsbSum | script.js:869 | the low-bit count of a pixel's red, green and blue is at most 3 |
| Stego.NoiseMap | script.js:868-876 | the noise map has one byte per image byte, each `NoiseByte` of the pixels: 255 for alpha, 85 times the pixel's low-bit count otherwise (per pixel, `NoisePixel`) |
| Stego.NoiseChannel | script.js:872-874 | each of the red, green and blue bytes of a noise pixel is 85 times the pixel's low-bit count |
| Stego.NoisePixel | script.js:868-876 | every noise pixel is grey (R = G = B) at 0, 85, 170 or 255, set by the source pixel's low bits, with alpha 255 |
| Stego.FillNoiseMap | script.js:868-876 | the in-place stride-4 loop leaves exactly the noise map of the pixels in the buffer |
| Stego.SampledLsbBound | script.js:846-855 | over the first n pixels, the low-bit total of those whose index is a multiple of 100 is at most 3·⌈n/100⌉ |
| Stego.SampleLsb | script.js:846-855 | the loop counts every pixel, adds the low bits of every hundredth one, and stays within that bound |
| JsStrings.Trim | script2.js:71 | `trim` keeps a middle part of the string with only whitespace cut on either side; it is empty exactly for an all-whitespace string, and otherwise starts and ends with a non-whitespace character |
| JsStrings.Split | script2.js:86 | `split` gives at least one field, and no field holds the separator |
| JsStrings.JoinSplit | script2.js:86 | joining the fields of `split` with the separator gives back the string |
| JsStrings.SplitCount | script2.js:87 | `split` gives one field more than there are separators |
| JsStrings.SingleFieldIff | script2.js:87 | a string splits into one field exactly when it holds no separator |
| JsStrings.SplitPair | script2.js:89-90 | two separator-free words joined by one separator split back into those two words |
| JsStrings.SplitTriple | script2.js:106-107 | three separator-free words joined by single separators split back into those three words |
| JsStrings.ThreeFields | script2.js:106-107 | a string of three fields is those three separator-free fields joined by single separators |
| JsStrings.FieldOfSplit | script.js:486-487 | every field of `split` occurs in the string bounded by separators or ends |
| JsStrings.SplitOfField | script.js:486-487 | every separator-free word bounded by separators or ends is a field of `split` |
| JsStrings.InSplitIff | script.js:486-487 | `s.split(sep).includes(t)` holds exactly when `t` is separator-free and occurs bounded by separators or ends |
| Terminal.EntryOf | script2.js:6-49 | the table's own keys are the seven command names, and only "clear" selects the `clear` entry |
| Terminal.TextEmptyIff | script2.js:48 | only the entry of `clear` holds the empty, falsy, string |
| Terminal.TypedNamesIff | script2.js:126 | the truthy own entries are exactly help, about, socials, projects, themes and gui |
| Terminal.Classify | script2.js:78-140 | the first matching branch wins: gui; a line starting with "themes"; then "set-theme"; "clear"; the help texts of help, about, socials and projects; otherwise not found |
| Terminal.ListedBranchUnreachable | script2.js:126-133 | the socials/projects branch is never taken, because the lookup before it already matches both names |
| Terminal.ClearIsNotFoundByLookup | script2.js:121-126 | "clear" needs its own branch: its entry is the falsy empty string, which the lookup does not accept |
| Terminal.EmptyLineNotFound | script2.js:71-137 | a line that is blank after trimming is not found |
| Terminal.ThemesHelpIff | script2.js:85-88 | a line starting with "themes" shows the theme help exactly when it holds no space |
| Terminal.SwitchThemeShape | script2.js:85-93 | a line that switches the theme is a space-free first word starting with "themes", one space, and a listed theme name |
| Terminal.SwitchThemeOfShape | script2.js:85-93 | every such line switches to that theme |
| Terminal.SwitchThemeIff | script2.js:85-93 | both directions: the theme is switched to `name` exactly for those lines |
| Terminal.ThemesErrorsIff | script2.js:85-100 | a "themes…" line is an invalid theme exactly when it has one space and the word after it is not light, dark or blue; it is a syntax error exactly when it has two or more spaces |
| Terminal.SetThemeErrorIff | script2.js:104-117 | a "set-theme…" line (not starting with "themes") sets custom colours exactly when it has two spaces, and is a syntax error otherwise |
| Terminal.CustomThemeShape | script2.js:104-114 | a line that sets custom colours is a space-free "set-theme…" head, the background and the text colour, separated by single spaces |
| Terminal.CustomThemeOfShape | script2.js:104-114 | every such line not starting with "themes" sets exactly those two colours |
| Terminal.CustomThemeIff | script2.js:104-114 | both directions: custom colours `bg` and `text` are set exactly for those lines, verbatim |
| Terminal.ClassifyAsWritten | script2.js:78-140 | the dispatch as the page runs it; it differs from the own-entries dispatch only by typing an inherited name as a command |
| Terminal.InheritedNamesAreDispatched | script2.js:126-128 | the lookup as written treats Object.prototype's names as commands; the corrected dispatch reports them not found |
| Terminal.SetStyleProperty | script2.js:109-110 | an empty value removes the property; a non-empty one sets it; other properties are untouched |
| Terminal.Restore | script2.js:148-157 | at load, a stored non-empty theme becomes the body class; only "custom-theme" puts back the stored colours (a missing one is removed); storage is unchanged |
| Terminal.Apply | script2.js:89-117 | the settings after a branch: every action but a theme switch or a custom theme leaves them as they were; a switch keeps the colours; storage gains exactly the keys the branch writes |
| Terminal.Show | script2.js:75-140 | the screen after a branch: only `gui` changes the location, to the site, and only not found sets the shake |
| Terminal.Step | script2.js:69-144 | the page after Enter: the trimmed line is classified, its screen is `Show` and its settings `Apply` of the old ones |
| Terminal.SettingsChangeOnlyOnThemeLines | script2.js:84-118 | only a line starting with "themes" or "set-theme" changes the body class, the style or storage |
| Terminal.ApplyKeepsColoursOnly | script2.js:108-110 | the only inline properties ever set are the two custom colours |
| Terminal.OutputOnlyGrows | script2.js:75-140 | every line but "clear" keeps the previous output and appends its echo after the prompt |
| Terminal.RedirectAndShake | script2.js:78-140 | only "gui" changes the location, and only to the site; only a line not found shakes the terminal |
| Terminal.BlankLineNotFound | script2.js:71-140 | a blank line echoes an empty command, prints "Command not found." and shakes; the settings stay |
| Terminal.SwitchedThemeSurvivesReload | script2.js:92-93 | after `themes <name>`, a reload sets the same body class again, with no custom colours |
| Terminal.CustomThemeSurvivesReload | script2.js:108-113 | after `set-theme <bg> <text>`, a reload rebuilds exactly the class, colours and storage the command made |
| Terminal.Terminal.constructor | script2.js:52-53 | the page starts with an empty output and the settings `Restore` gives for the saved storage |
| Terminal.Terminal.HandleEnter | script2.js:69-144 | the Enter handler leaves the page in exactly the state `Step` gives for the old page and the line |
| Terminal.Terminal.ShowAction | script2.js:75-140 | the echo and what the branch prints, redirects or shakes: the screen becomes `Show` of the old one; the theme fields stay |
| Terminal.Terminal.ApplyAction | script2.js:89-117 | the branch's theme change: the settings become `Apply` of the old ones; output, redirect and shake stay |

## Left out

- Terminal.Terminal.HandleEnter: dispatches with the corrected lookup of `Terminal.Classify`, not the as-written one of `Terminal.ClassifyAsWritten` (see Findings). It also writes the branch's output first and its theme change second, while the page interleaves the two inside a branch; nothing reads the page in between, so the final state is the same.
- PBKDF2 and AES-GCM themselves are functions of a `Provider` value, and are not computed. That the cipher inverts itself is the requirement `OpenInvertsSeal` of `CipherTool.RoundTrip`. The tag length is `SealAppendsTag` of `CipherTool.ArtifactLength`. Refusing short data is `OpenRejectsShort` of `CipherTool.ShortBufferFails`.
- The key usages `['encrypt']`/`['decrypt']` and `importKey` are not modelled; they carry no logic beyond the derivation.
- `crypto.getRandomValues`: the salt and IV are parameters of the 16 and 12 bytes it always returns.
- TextEncoder/TextDecoder: text and password are UTF-8 bytes. The decrypted bytes are shown as bytes, without the decoder's replacement of malformed sequences.
- The `catch` of `encryptText` (script.js:730-731) is not modelled. Nothing in the model can throw: the host's key and cipher calls are total functions, and `btoa` never fails on a binary string. The argument-count limit of `String.fromCharCode(...combined)` for very large buffers is not modelled either.
- All `await` sequencing and the asynchronous image load of the scan. Each operation is one atomic step.
- The suspicion level and average of the scan (script.js:857-858) are floating-point division. The canvas drawing is DOM work.
- Stego.FillNoiseMap: only buffer lengths that are multiples of four are modelled, which is what `ImageData` always has.
- Navigation.LastReached: offsets and the reading line are integers, while the page uses floating-point pixels. The 100 ms throttle around the search is left out.
- Utils.Clamp: on integers only; NaN and floating-point are not modelled. `utils.lerp`/`utils.map`, `debounce` and `throttle` are floating-point or timer code.
- ContactForm.HandleFormSubmit: the fields are strings. A form with no `name`, `email` or `message` field would make `trim` throw. The delayed "thank you" alert, the button state and the form reset are timers and DOM.
- EmailDecoder.CodeUnits: strings are taken to be in the Basic Multilingual Plane, as the stored constant is. The page's display of the result is DOM work.
- The page scripts' other parts are left out as DOM, timer or graphics work: WebGL, cursor, tilt, radar, dials, counters, the ticker, modals, the source viewer, lazy loading, prefetch, focus trapping, clipboard, input persistence. main.js is not part of this model.
- The terminal output is a plain string. `innerHTML` would parse it as HTML: `<theme-name>` in a message becomes a tag, and any markup in a typed line is rendered, both in its echo after the prompt (script2.js:75) and in `set-theme` arguments.
- `typeEffect` is taken as finished at once. Its 20 ms steps, any output interleaved while it runs, and the `gui` redirect happening only after the typing are not modelled. The redirect is recorded as `location`.
- The shake class is removed again after 300 ms; the model keeps `shaking` set. Scrolling the output and clearing the input field have no state in the model.
- CSS custom-property values are stored verbatim and not parsed.

## Findings

| source | as written | input that shows it | evidently intended | confidence | as-written member | corrected member |
|---|---|---|---|---|---|---|
| script2.js:126-128 | `commands[value]` also finds the properties every object inherits from Object.prototype, so these names pass as commands | `toString` (or `constructor`, `valueOf`, `__proto__`, …): it is dispatched to `typeEffect` with a function instead of a text, where "Command not found." was meant | only the table's own, non-empty entries are commands; every other name is not found | not executed | Terminal.InheritedNamesAreDispatched | Terminal.Classify |

`Terminal.ClassifyAsWritten` is the dispatch as written: the lookup also accepts `InheritedNames`. `Terminal.InheritedNamesAreDispatched` proves that it sends each such name to the command branch, while `Terminal.Classify` reports it not found. The page state (`Terminal.Step`, `Terminal.Terminal.HandleEnter`) uses the corrected `Terminal.Classify`.

Another oddity is outside the findings because the intended value is unknown. The e-mail constant at script.js:979 decodes with key 15 to `gawyjdkg~mekdj,ctckgbsi{scdu`, which holds no `@` (`EmailDecoder.DecodedConstantHasNoAt`).
