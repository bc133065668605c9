# tapwatch, modelled in Dafny

tapwatch shows an animated dog in the terminal that types along with the
keyboard. A global keyboard hook turns every key press into a display string
(`key_to_string`). An animation controller (`App`) switches between an Idle
and a Typing animation, keeps a short trace of what was typed, and tracks
whether the picture must be redrawn. Sprite sheets are cut into frames that
are cleared of their white background, centred, and picked cyclically by
the renderer. Text-mode sprites give a fallback drawing.

This project models that core and proves its properties:

| module | file | source |
|---|---|---|
| `Timing` | timing.dfy | the clock and counter arithmetic of both controllers: saturating `duration_since`, cyclic frame steps, the wrapping `u64` tick counter, the scanline offset |
| `AppState` | app_state.dfy | src/app/state.rs: the current controller, as class `App`, with the text trace as the value type `TextTrace` |
| `LegacyApp` | legacy_app.dfy | src/app.rs: the earlier controller, as class `App` |
| `Keys` | keys.dfy | src/app/keys.rs: `key_to_string`, checked against the controller's key tests and the key sprite grid |
| `Raster` | raster.dfy | pixels, RGBA images, frame rectangles, `remove_background` and the cyclic frame lookup; the three sprite-sheet files carry identical copies of `remove_background`, and the two frame-sheet files share the cyclic lookup |
| `AppSheet` | app_sheet.dfy | src/app/spritesheet.rs: the 4x4 frame tables, `find_content_bounds`, `center_content`, `get_typing_frame`, `get_idle_frame` |
| `Sheet` | spritesheet.dfy | src/spritesheet.rs: the 204x346 and 341x346 frame tables and the frame lookups |
| `KeySheet` | key_sheet.dfy | src/key_spritesheet.rs: `get_key_position`, `extract_frame`'s bounds check, `extract_all_key_frames`, `get_key_sprite` |
| `Sprite` | sprite.dfy | src/sprite.rs: the ten text sprites and `get_frame` |
| `AppSprite` | app_sprite.dfy | src/app/sprite.rs: the three pixel-art sprites and `get_frame` |
| `Wrappers` | wrappers.dfy | `Option` |

Modelling choices:

- **Time.** `Instant::now()` is an explicit `now` in milliseconds. `duration_since` saturates at zero, as current Rust does.
- **Random idle frame.** The frame picked when typing stops is a value `idlePick < 8` that the caller supplies.
- **Effects.** A tachyonfx effect is reduced to its kind (coalesce or dissolve) and whether it is done.
- **Fixed-width counters.** The `u64` tick counter wraps modulo 2^64 explicitly. Frame counters stay below 8 and the scanline offset below 20, which the class invariant `Valid()` records.
- **Text.** The typed text is a `seq<char>`. The source caps the byte length of the text (src/app/state.rs:166-169), while the model caps its character length; new characters are counted by `chars().count()` in both. The two caps agree on ASCII text. `Keys.LiteralOutputIsAscii` proves that every string `key_to_string` produces that the controller appends is ASCII, and every special-key label is ASCII (`AppState.SpecialKeyDisplay`).
- **Images.** An image is its width, height and rows of `(r, g, b, a)` byte pixels. A sprite sheet is reduced to its dimensions, and a cut-out frame to its rectangle.

Where the prose description and the code differ, the model follows the code:

- **Leaving Typing.** Typing ends once at least 3 s have passed (`>=`, src/app/state.rs:204), not once more than 3 s have passed.
- **Content bounds of an empty image.** `find_content_bounds` on an image with no pixels returns the box `(0, 0, 1, 1)`. Its minima start at the width and height (both 0) and so equal the maxima (0). `AppSheet.IsContentBounds` states this case as written.

## Model

| member | source | states |
|---|---|---|
| Timing.Elapsed | src/app/state.rs:198 | `duration_since` is the difference of the two instants, or zero when the earlier one is later |
| Timing.NextFrame | src/app/state.rs:200 | one frame step stays below the frame count: the next frame, or 0 after the last |
| Timing.AdvanceIsModular | src/app/state.rs:198-201 | after any number of steps a frame counter sits at `(start + steps) mod count` |
| Timing.AdvanceFullCycle | src/app/state.rs:200 | after exactly `count` steps a frame counter is back where it started |
| Timing.AdvanceFromZeroReaches | src/app/state.rs:174-177 | from the frame-0 restart of `on_key`, every frame is reached, frame `f` after `f` steps |
| Timing.WrappingIncrement | src/app/state.rs:187 | `wrapping_add(1)` on a `u64`: the successor, or 0 after 2^64 - 1 |
| Timing.NextScanline | src/app/state.rs:190-192 | the scanline moves one step mod 20 on ticks whose counter is a multiple of 3, and stays put on the others |
| AppState.IsIgnoredKey | src/app/state.rs:102-104 | `is_ignored_key`: the test that makes `on_key` drop a key; its meaning is stated by `IgnoredKeysAreModifiers` |
| AppState.IsSpecialKey | src/app/state.rs:107-114 | `is_special_key`: the test that makes `on_key` replace the text by a label; its meaning is stated by `SpecialKeysAreListed` |
| AppState.IgnoredKeysAreModifiers | src/app/state.rs:102-104 | a key is ignored exactly when it is one of the four modifier symbols |
| AppState.SpecialKeysAreListed | src/app/state.rs:107-114 | a key is special exactly when it is one of the 10 symbols or F1 to F12 |
| AppState.SpecialKeyDisplay | src/app/state.rs:117-131 | special keys get an ASCII label of 2 to 5 characters; every other string is shown as itself |
| AppState.FunctionKeysShowThemselves | src/app/state.rs:112-129 | F1 to F12 are special and are labelled with their own name |
| AppState.SpecialLabelsAreDistinct | src/app/state.rs:117-131 | distinct special keys get distinct labels |
| AppState.SpecialAndIgnoredAreDisjoint | src/app/state.rs:102-114 | no key is both a modifier and special |
| AppState.KeepLast | src/app/state.rs:165-170 | the truncation keeps exactly the last 100 characters, or everything when there are fewer |
| AppState.KeepLastOfKeepLast | src/app/state.rs:165-170 | truncating after every append leaves the same text as truncating once at the end |
| AppState.TypeKey | src/app/state.rs:134-171 | a modifier leaves the trace alone; a special key makes the text exactly its label, flagged special, with its length as the new-character count; a literal key is appended (to nothing after a label), cut to 100, unflagged, with its length as the count; the cap is preserved |
| AppState.LiteralReplacesSpecialText | src/app/state.rs:154-163 | a literal key typed after a special-key label makes the text exactly that key |
| AppState.LiteralAppends | src/app/state.rs:159-163 | a literal key typed after literal text is appended while the cap is not reached |
| AppState.LiteralOverflowKeepsSuffix | src/app/state.rs:165-170 | on overflow the text is exactly the last 100 characters of old text followed by the key |
| AppState.TypeKeysAppend | src/app/state.rs:134-171 | the trace after two runs of keys is the trace after their concatenation |
| AppState.TypeKeysBounded | src/app/state.rs:165-170 | after any sequence of keys the text stays within 100 characters |
| AppState.LiteralRunKeepsLastCharacters | src/app/state.rs:152-170 | a run of literal keys leaves the last 100 characters of the old text followed by all of them |
| AppState.SpecialKeyResetsTrace | src/app/state.rs:146-151 | whatever came before, a special key leaves exactly its label, flagged special |
| AppState.App.constructor | src/app/state.rs:77-99 | Idle, all counters 0, all timers at `now`, empty text, no effects, nothing rendered, and a redraw is needed at every size |
| AppState.App.UpdateText | src/app/state.rs:145-171 | the text fields change exactly as `TypeKey` says |
| AppState.App.OnKey | src/app/state.rs:134-182 | a modifier changes no field; any other key updates the trace per `TypeKey`, records `now`, clears the fade, starts the coalesce effect and enters Typing, with the typing frame reset to 0 only when coming from Idle; the invariant is kept |
| AppState.App.Tick | src/app/state.rs:185-230 | keeps the counters in range; in Typing, advances the typing frame by one mod 8 exactly when 250 ms have passed and moves to Idle exactly when 3 s have passed since the last key, at the supplied idle frame and with a dissolve started; in Idle, advances the idle frame exactly when 10 s have passed and clears the text and the fade exactly when the fade is done |
| AppState.App.Quit | src/app/state.rs:233-235 | sets the quit flag and changes nothing else |
| AppState.App.GetElapsed | src/app/state.rs:238-243 | returns the time since the last frame and restarts the frame timer |
| AppState.App.NeedsImageRedraw | src/app/state.rs:246-265 | a redraw is needed exactly when the size, state, active frame or text differs from the last render |
| AppState.App.MarkRendered | src/app/state.rs:268-276 | the snapshot becomes the current view, so no redraw is needed at the same size |
| AppState.App.ProcessFadeEffect | src/app/ui.rs:45-53 | the fade advances (and may finish) only while text is shown and the fade is unfinished; otherwise it is unchanged |
| LegacyApp.App.constructor | src/app.rs:57-74 | Idle, counters 0, timers at `now`, no key, nothing rendered, and a redraw is needed at every size |
| LegacyApp.App.OnKey | src/app.rs:77-87 | every key, unfiltered, becomes the last key and records `now`; enters Typing, resetting the typing frame only when coming from Idle |
| LegacyApp.App.Tick | src/app.rs:90-124 | keeps the counters in range; frames advance by one mod 8 exactly when their interval has passed; Typing moves to Idle exactly when 3 s have passed since the last key, at the supplied idle frame |
| LegacyApp.App.Quit | src/app.rs:127-129 | sets the quit flag and changes nothing else |
| LegacyApp.App.NeedsImageRedraw | src/app.rs:132-151 | a redraw is needed exactly when the size, state, active frame or last key differs from the last render |
| LegacyApp.App.MarkRendered | src/app.rs:154-162 | the snapshot becomes the current view, so no redraw is needed at the same size |
| Keys.DecimalString | src/app/keys.rs:96 | the decimal notation of a number: non-empty digits without a leading zero |
| Keys.DecimalRoundTrip | src/app/keys.rs:96 | reading the decimal notation back gives the number |
| Keys.KeyToString | src/app/keys.rs:6-98 | every key gives a non-empty string |
| Keys.LettersIgnoreShift | src/app/keys.rs:9-34 | letter keys give their upper-case letter in either shift state |
| Keys.DigitTable | src/app/keys.rs:37-46 | digit keys give the digit, or when shifted the US symbol from `)!@#$%^&*(`, which always differs |
| Keys.FunctionKeyNames | src/app/keys.rs:69-80 | function keys give `F1` to `F12` |
| Keys.ShiftAffectsOnlyDigitsAndPunctuation | src/app/keys.rs:6-98 | shift changes the output exactly for the digit and punctuation keys |
| Keys.PunctuationRoundTrip | src/app/keys.rs:83-93 | a punctuation key gives one printable non-alphanumeric ASCII symbol, from which the shift table read backwards recovers the key and the shift state |
| Keys.PunctuationTableInjective | src/app/keys.rs:83-93 | the 22 punctuation outputs are pairwise different |
| Keys.ModifierOutputIsIgnored | src/app/keys.rs:63-66 | the output is one that the controller ignores exactly for the eight modifier keys |
| Keys.NamedOutputIsSpecial | src/app/keys.rs:49-80 | the output is one the controller treats as special exactly for Space, Return, Tab, Backspace, Escape, Delete, the arrows and F1 to F12 |
| Keys.LiteralOutputIsAscii | src/app/keys.rs:6-98 | every output the controller appends to its text is ASCII |
| Keys.NamedKeysAreSpecial | src/app/keys.rs:49-80 | Space, Return, Tab, Backspace, Escape, Delete, the arrows and F1 to F12 give strings the controller treats as special |
| Keys.ModifiersAreIgnored | src/app/keys.rs:63-66 | the eight modifier keys give strings the controller ignores |
| Keys.OtherKeysGiveAscii | src/app/keys.rs:6-98 | letters, digits, punctuation and unknown keys give ASCII that is one character or starts with `?` |
| Keys.AsciiIsPlain | src/app/state.rs:102-114 | an ASCII string of one character or starting with `?` is neither ignored nor special |
| Keys.KeySpriteCells | src/app/keys.rs:9-46 | letters and unshifted digits have a key sprite cell (digit d at (0, d)); shifted digits have none |
| Raster.WithoutBackground | src/app/spritesheet.rs:100-107 | a pixel with r, g and b all above 240 loses its alpha; colour is kept; every other pixel is unchanged |
| Raster.WithoutBackgroundIdempotent | src/app/spritesheet.rs:100-107 | clearing the background twice is clearing it once |
| Raster.RemoveRowBackground | src/app/spritesheet.rs:100-107 | the pass over one row clears every pixel of it and keeps its length |
| Raster.RemoveBackground | src/app/spritesheet.rs:97-110 | same dimensions, and every pixel is the original pixel with its background cleared (src/spritesheet.rs:90-103 and src/key_spritesheet.rs:115-127 are identical copies) |
| Raster.NoVisibleBackground | src/app/spritesheet.rs:103-106 | after the pass every near-white pixel is fully transparent |
| Raster.FrameAt | src/app/spritesheet.rs:175-182 | no frame exactly when none were extracted, otherwise the frame at the index modulo their number |
| Raster.FrameAtInRange | src/app/spritesheet.rs:175-182 | an index within the list selects exactly that frame |
| Raster.FrameAtCycles | src/app/spritesheet.rs:180 | advancing the index by the number of frames selects the same frame |
| AppSheet.IdleLayout | src/app/spritesheet.rs:22-33 | idle frame i is the 256x256 cell at (256 (i mod 4), 256 (i div 4)) |
| AppSheet.TypingLayout | src/app/spritesheet.rs:36-47 | typing frame i is the 256x256 cell at (256 (i mod 4), 256 (2 + i div 4)) |
| AppSheet.CellsTileSheet | src/app/spritesheet.rs:8-10 | the 16 cells of the 4x4 grid lie in the 1024x1024 sheet and do not overlap |
| AppSheet.FramesDisjoint | src/app/spritesheet.rs:22-47 | all idle and typing frames lie in the sheet and no two share a pixel |
| AppSheet.ContentBoundsUnique | src/app/spritesheet.rs:113-135 | at most one box is the tightest box around an image's content |
| AppSheet.ContentBoundsExist | src/app/spritesheet.rs:113-135 | every image has content bounds, so with `ContentBoundsUnique` they are a function of the image |
| AppSheet.ContentBoxIsBounds | src/app/spritesheet.rs:113-135 | for an image with content, the box from its first to its last content column and row is its content bounds |
| AppSheet.ScanRow | src/app/spritesheet.rs:120-128 | scanning one more row extends the running minima and maxima to every content pixel in it |
| AppSheet.FindContentBounds | src/app/spritesheet.rs:113-135 | no box exactly when a non-empty image has no pixel with alpha above 10; otherwise the box inside the image that encloses all such pixels and touches one on each edge |
| AppSheet.SaturatingSub | src/app/spritesheet.rs:147-148 | `saturating_sub`: the difference, or 0 when it would be negative |
| AppSheet.Centered | src/app/spritesheet.rs:143-166 | the centred image has the target dimensions |
| AppSheet.CenteredMargins | src/app/spritesheet.rs:147-148 | a box that fits has equal margins on both sides, or one more on the right (below) |
| AppSheet.CenteringKeepsContent | src/app/spritesheet.rs:151-163 | when the box fits, content pixel (x, y) lands at (offset_x + x - cx, offset_y + y - cy), unchanged |
| AppSheet.CenteredOutsideIsTransparent | src/app/spritesheet.rs:144 | every pixel outside the placed box is transparent |
| AppSheet.CopySpan | src/app/spritesheet.rs:152-163 | one row of the copy: the span gets the source pixels that exist, everything else is kept |
| AppSheet.CenterContent | src/app/spritesheet.rs:138-167 | without content the input comes back unchanged; otherwise the result is the centred image of its content box |
| AppSheet.GetTypingFrame | src/app/spritesheet.rs:175-182 | with all 8 typing frames extracted, typing frame i shows exactly frame i |
| AppSheet.GetIdleFrame | src/app/spritesheet.rs:185-192 | with all 8 idle frames extracted, idle frame i shows exactly frame i |
| Sheet.TypingLayout | src/spritesheet.rs:22-35 | typing frame i is 204x346 at (204 (i mod 5), 346 (i div 5)) |
| Sheet.IdleLayout | src/spritesheet.rs:38-43 | idle frame i is 341x346 at (341 i, 692) |
| Sheet.FramesFitSheet | src/spritesheet.rs:8-43 | every frame lies in the 1024x1040 sheet and no typing frame overlaps an idle frame |
| Sheet.TypingFramesDisjoint | src/spritesheet.rs:22-35 | distinct typing frames do not overlap |
| Sheet.IdleFramesDisjoint | src/spritesheet.rs:38-43 | distinct idle frames do not overlap |
| Sheet.GetTypingFrame | src/spritesheet.rs:111-118 | with all 10 typing frames extracted, the frame at the index modulo 10 |
| Sheet.GetIdleFrame | src/spritesheet.rs:121-128 | with all 3 idle frames extracted, the frame at the index modulo 3 |
| KeySheet.ToUpper | src/key_spritesheet.rs:28 | upper-casing keeps the length and maps each character |
| KeySheet.ToUpperIdempotent | src/key_spritesheet.rs:136 | upper-casing an upper-cased key changes nothing |
| KeySheet.GetKeyPosition | src/key_spritesheet.rs:22-51 | positions have row below 4 and column below 10; the empty key has none |
| KeySheet.KeyPositionFollowsGrid | src/key_spritesheet.rs:31-50 | a key has a position exactly when its first upper-cased character is a digit or letter, and the grid cell there holds that character |
| KeySheet.PositionHoldsKey | src/key_spritesheet.rs:31-50 | the cell found for a key holds its first upper-cased character: digits in row 0, A-J in row 1, K-T in row 2, U-Z in row 3 |
| KeySheet.KeyPositionInjective | src/key_spritesheet.rs:31-50 | two keys share a position exactly when their first upper-cased characters agree |
| KeySheet.KeyPositionCaseInsensitive | src/key_spritesheet.rs:28-29 | only the first character matters, and not its case |
| KeySheet.GridCellsArePositions | src/key_spritesheet.rs:72-88 | each grid cell is the position of the one-character key it holds |
| KeySheet.ExtractFrame | src/key_spritesheet.rs:93-100 | a cell is cut out exactly when its 64x64 square fits in the sheet, and then lies inside it |
| KeySheet.ExtractedFramesDisjoint | src/key_spritesheet.rs:93-102 | frames cut from different cells do not overlap |
| KeySheet.InsertKeyFrames | src/key_spritesheet.rs:73-79 | one loop adds the frame of every one-character name in its range whose cell fits, and keeps the other entries |
| KeySheet.ExtractAllKeyFrames | src/key_spritesheet.rs:65-91 | no sheet gives no frames; otherwise exactly the digit and letter names whose cell fits, each with its cell's frame |
| KeySheet.FullSheetHasEveryKey | src/key_spritesheet.rs:65-100 | a sheet of at least 640x256 yields a frame for every digit and letter |
| KeySheet.GetKeySprite | src/key_spritesheet.rs:135-138 | a sprite exactly when the upper-cased key is stored, and then the stored one |
| KeySheet.KeySpriteCaseInsensitive | src/key_spritesheet.rs:135-138 | keys that upper-case alike get the same sprite |
| KeySheet.KeySpriteFromSheet | src/key_spritesheet.rs:135-138 | against a sheet's frames, a key has a sprite exactly when it is one digit or letter (either case) whose cell fits |
| Sprite.GetFrame | src/sprite.rs:170-180 | every selected sprite is 11 rows of 19 characters |
| Sprite.FrameShapes | src/sprite.rs:14-124 | the laptop and cartoon sprites are 12 rows of 20 characters |
| Sprite.PixelShapes | src/sprite.rs:126-167 | the pixel-art sprites are 11 rows of 19 characters |
| Sprite.PixelSpritesDistinct | src/sprite.rs:127-167 | the three pixel-art sprites are different drawings |
| Sprite.IdleFrameIsFixed | src/sprite.rs:177-179 | not typing, the idle sprite is shown whatever the frame number |
| Sprite.TypingFrameSelection | src/sprite.rs:171-176 | typing, the second sprite exactly on frame numbers 1 mod 3, the first on all others, the idle one never |
| Sprite.TypingFramePeriodic | src/sprite.rs:172 | the typing animation repeats every three frames |
| AppSprite.SameSprites | src/app/sprite.rs:2-42 | the three sprites equal those of src/sprite.rs |
| AppSprite.GetFrame | src/app/sprite.rs:45-55 | selects exactly what `Sprite.GetFrame` selects, an 11x19 sprite |
| AppSprite.FrameSelection | src/app/sprite.rs:45-55 | idle sprite when not typing; second typing sprite exactly on 1 mod 3; never idle when typing; period 3 |

## Left out

- The keyboard hook thread, the channel between it and the render loop, the atomic shift flag and terminal polling (src/main.rs) are concurrency and I/O. The controller is modelled one call at a time.
- Terminal detection, raw-mode handling, the iTerm2 inline-image escape sequence and the base64 encoding (src/terminal.rs, src/app/terminal.rs, src/iterm2.rs) are I/O.
- Widget layout and painting (src/ui.rs, src/app/ui.rs) are left out; only the fade step of src/app/ui.rs that changes the controller is modelled.
- src/ui.rs refers to a font module and controller fields that do not exist; it is not part of this model.
- Loading the sheet files, `crop_imm`, `to_rgba8`, PNG encoding and `extract_frames` are left out, because they are image-library calls. The frame lookups take the extracted frames as a parameter. The key sheet is reduced to its optional dimensions and a frame to its rectangle.
- `is_loaded` and `frame_dimensions` only report a library value or a constant.
- The colour constants of src/sprite.rs are only used for painting.
- Effect easing and progress are floating point. An effect is reduced to whether it is done, and the renderer's step to a `finishes` flag.
- `rand::thread_rng` is replaced by the caller's `idlePick < 8`, so the model does not show that the pick is uniform.
- `Instant` arithmetic on durations is milliseconds on `nat`. Each constructor and each `on_key` takes one instant `now`: the three reads of the clock in the earlier `App::new` (src/app.rs:62-65), the four in the current one (src/app/state.rs:82-95), and the two in each `on_key` (src/app.rs:79,85 and src/app/state.rs:140,177) are taken to return the same instant.
- KeySheet.ToUpper: upper-cases ASCII letters only. `str::to_uppercase` also maps other letters, some to several characters, and no key string the hook produces contains such a letter.
- AppState.App.UpdateText: truncates by characters where the source truncates by bytes. The two agree on ASCII text, which is all the controller receives (`Keys.LiteralOutputIsAscii`). On other text the source could cut inside a character and panic, and the model does not capture that.
- Terminal sizes are `(u16, u16)` in the source and unbounded naturals here. The frame-rectangle arithmetic is `u32` in the source and unbounded here; every constant rectangle is far below 2^32.
- The end-to-end behaviour of a sequence of `on_key` and `tick` calls is stated on the text trace (`AppState.TypeKeys` and its lemmas) and per call on the class, not as one multi-call method.
