# blind_watermark GUI: a Dafny model of its core

The blind_watermark GUI is a desktop shell around the `blind_watermark`
library's `WaterMark` class. This project models the logic the shell adds
around that library:

- **The operation pipeline** of `watermark_handler.py` (module `Handler`).
  - `embed_watermark` and `extract_watermark` check their string inputs in a
    fixed order and stop at the first failure.
  - They parse comma-separated bit lists, `w,h` / `n` shape strings and the
    two passwords.
  - They call the `WaterMark` library and map every outcome to a
    `(success, message, payload)` triple.
  - The library and the output-file writes are an `Env` of total functions:
    each call returns a value or raises with a message.
  - Every handler function also returns the trace of calls it made, so
    "no `WaterMark` was built" and "the payload is what was written" can be
    stated.
- **The Python text built-ins** the pipeline rests on (module `PyText`):
  `str.split`, `str.join`, base-10 `int()` of a `str`, and `str()` of an
  integer.
- **`load_config`** of `config.py` (module `Config`): the saved JSON merges
  over the defaults, and a stale background path is reset. Reading the file
  and `os.path.exists` are inputs.
- **The `BackgroundManager`** of `background.py` (module `Background`).
  - The cover-fit geometry of the window background and of the 400x220
    preview, in exact arithmetic.
  - The debounce state machine of `on_window_resize`. Tk's timers are a set
    of scheduled ids, and a timer firing is an explicit step.
  - The load, clear, choose and preview transitions, which keep
    `config["background_image"]` in step with the loaded picture.
- **Navigation** of `app.py` and `components.py` (modules `App` and
  `Components`).
  - The main window's registered pages and `show_page`.
  - The sidebar's navigation table, `update_nav_buttons` and `get_theme`.
- **The older single-window tool** `blind_watermark_gui.py` (module
  `LegacyGui`). It is a class over its `StringVar` fields, its message boxes
  and its result text widget. Its `embed_watermark` and `extract_watermark`
  are proved to make exactly the calls, and reach exactly the outcome, of the
  handler's functions on the same inputs.

Where the handler's code and its documented intent differ, the model follows
the code:

- any integer token is an accepted "bit", so `"1,2,0"` parses
  (`Handler.AnyIntegerIsABit`);
- shape integers are not checked for sign or zero
  (`Handler.ImageShapeUnchecked`, `Handler.LengthUnchecked`);
- the output path is checked before the shape string is parsed
  (`Handler.ValidateExtract`);
- an extract mode outside `img`, `str` and `bit` passes every check and
  returns `None` instead of a triple (`Handler.ExtractBy`).

## Model

| member | source | states |
|---|---|---|
| PyText.Split | blind_watermark-master/blind_watermark_gui/watermark_handler.py:35 | `s.split(sep)` always has at least one token, and no token contains the separator |
| PyText.SplitJoin | blind_watermark-master/blind_watermark_gui/watermark_handler.py:142 | splitting a comma-join gives back the tokens, when there is at least one token and none holds a comma |
| PyText.JoinSplit | blind_watermark-master/blind_watermark_gui/watermark_handler.py:35 | joining the tokens of a split gives back the string, for every string |
| PyText.IntRoundTrip | blind_watermark-master/blind_watermark_gui/watermark_handler.py:106 | `int(str(n)) == n` for every integer, negative included, with no limit on the number of digits |
| PyText.ParseClean | blind_watermark-master/blind_watermark_gui/watermark_handler.py:106 | `int()` of an optional minus sign and a digit run is the run's value with that sign |
| PyText.ParseDigit | blind_watermark-master/blind_watermark_gui/watermark_handler.py:35 | `int()` of a single ASCII digit is that digit's value |
| PyText.SeparatorIsNotSpace | blind_watermark-master/blind_watermark_gui/watermark_handler.py:106 | an example: `int()` does not skip the ASCII separator U+001C around a number, though `str.isspace()` counts it as white space: `int("\x1c1")` raises |
| PyText.NatToStringValue | blind_watermark-master/blind_watermark_gui/watermark_handler.py:106 | the digits of `str(n)` read back as `n` |
| Handler.BoolsOf | blind_watermark-master/blind_watermark_gui/watermark_handler.py:35 | `list(map(bool, map(int, tokens)))` succeeds iff every token parses as an integer; it then has one boolean per token, true exactly where the integer is nonzero |
| Handler.ParseBits | blind_watermark-master/blind_watermark_gui/watermark_handler.py:33-37 | `None` content and `""` are rejected; a parse has one boolean per comma-separated token |
| Handler.ParseShape | blind_watermark-master/blind_watermark_gui/watermark_handler.py:97-108 | mode `img` accepts exactly two integer tokens and yields `(w, h)`; any other token count is rejected; other modes accept exactly what `int()` accepts and yield that length |
| Handler.ParsePasswords | blind_watermark-master/blind_watermark_gui/watermark_handler.py:43-46 | both passwords parse iff both are integers; the image password is parsed first; the first password that fails gives its own `int()` error text |
| Handler.ValidateEmbed | blind_watermark-master/blind_watermark_gui/watermark_handler.py:24-40 | a request is valid iff all five checks pass; each of the five messages (missing original, missing text in `str`, missing image in `img`, bad bits in `bit`, missing output) is returned exactly when its check is the first to fail; a valid bit request carries the parsed bits |
| Handler.EmbedWatermark | blind_watermark-master/blind_watermark_gui/watermark_handler.py:6-68 | a failed check returns `(False, msg, None)` with no call into the library; past the checks, success holds exactly when both passwords parse, `WaterMark(...)` returns and `read_img`/`read_wm`/`embed` return, and otherwise the message is `嵌入失败: ` followed by the text of the first step that raised; the first call is `WaterMark(int(pw_img), int(pw_wm))` and the second `read_img`/`read_wm`/`embed` on the request's paths; success says `水印嵌入成功！` and carries a length iff the mode is `str` or `bit`, and that length is what the library's embed returned |
| Handler.EmbedWith | blind_watermark-master/blind_watermark_gui/watermark_handler.py:43-68 | past the checks: success holds exactly when both passwords parse, `WaterMark(...)` returns and the embed returns; otherwise the message is `嵌入失败: ` followed by the first raised text and there is no payload; a bad password makes no call; the length is what the library's embed returned |
| Handler.EmbedAs | blind_watermark-master/blind_watermark_gui/watermark_handler.py:43-65 | with parsed passwords: a raising `WaterMark(...)` fails with `嵌入失败: ` and its text after that one call; otherwise both calls are made and success holds exactly when the embed returns, a raising embed failing with `嵌入失败: ` and its text; success reports a length iff the mode is `str` or `bit`, and it is the library's embed result |
| Handler.ValidateExtract | blind_watermark-master/blind_watermark_gui/watermark_handler.py:88-108 | valid iff the image path, shape and output path are non-empty and the shape parses; each of the five messages (missing image, missing shape, missing output, bad image shape, bad length) is returned exactly when its check is the first to fail, so the output path is checked before any shape parse |
| Handler.Thresholded | blind_watermark-master/blind_watermark_gui/watermark_handler.py:142 | one token per value, `"1"` exactly when the value is at least 0.5, else `"0"` |
| Handler.Deliver | blind_watermark-master/blind_watermark_gui/watermark_handler.py:132-134 | the call trace ends with the write of the text to the output path; a raising write fails with `提取失败: ` and its text, a returning one succeeds with the given message and the text as payload |
| Handler.ExtractBy | blind_watermark-master/blind_watermark_gui/watermark_handler.py:116-146 | the result is `None` iff the mode is outside `img`/`str`/`bit`, with no call after the constructor; for the three modes, success holds exactly when `extract` returns and, in `str` and `bit`, the write returns, and otherwise the result is `提取失败: ` followed by the text of the first step that raised; the call trace of each mode is stated; success carries the mode's own success message naming the output path, and no payload iff the mode is `img`; a `str` payload is the library's string unchanged; a `bit` payload is the thresholded join of the library's values |
| Handler.ExtractWatermark | blind_watermark-master/blind_watermark_gui/watermark_handler.py:71-148 | a failed check returns `(False, msg, None)` with no call; past the checks, a success for a known mode holds exactly when both passwords parse, `WaterMark(...)` returns, `extract` returns and the write returns, and otherwise the message is `提取失败: ` followed by the text of the first step that raised; `None` exactly for an unknown mode once every check, both passwords and the constructor succeed; success carries the mode's success message naming the output path, and the payloads of `ExtractBy` |
| Handler.ExtractWith | blind_watermark-master/blind_watermark_gui/watermark_handler.py:110-148 | success exactly for a known mode when both passwords parse and every call and the write return; `None` exactly for an unknown mode when the passwords and the constructor succeed; otherwise `提取失败: ` followed by the text of the first step that raised, with no payload; a bad password makes no call; success carries the mode's success message |
| Handler.ExtractAs | blind_watermark-master/blind_watermark_gui/watermark_handler.py:110-146 | with parsed passwords: a raising `WaterMark(...)` fails with `提取失败: ` and its text after that one call; otherwise success exactly for a known mode whose `extract` and write return, and the failure text of the first raising step; `None` only for an unknown mode; success carries the mode's success message |
| Handler.ParsesOne | blind_watermark-master/blind_watermark_gui/watermark_handler.py:35 | an example: `int("1") == 1` and `int("0") == 0` |
| Handler.BitStringTokens | blind_watermark-master/blind_watermark_gui/watermark_handler.py:142 | the bit string of a non-empty extraction splits into exactly one thresholded token per value |
| Handler.BitRoundTrip | blind_watermark-master/blind_watermark_gui/watermark_handler.py:142 | feeding a non-empty extracted bit string back to the embed bit parser yields exactly the thresholded booleans, one per value |
| Handler.BitTokensParse | blind_watermark-master/blind_watermark_gui/watermark_handler.py:35 | tokens that are all `"1"` or `"0"` parse to true exactly at the `"1"`s |
| Handler.EmptyBitStringRejected | blind_watermark-master/blind_watermark_gui/watermark_handler.py:142 | an empty extraction gives `""`, which the embed bit parser rejects |
| Handler.AnyIntegerIsABit | blind_watermark-master/blind_watermark_gui/watermark_handler.py:35 | `"1,2,0"` is accepted as bits, and `2` counts as true |
| Handler.DigitTokensParse | blind_watermark-master/blind_watermark_gui/watermark_handler.py:35 | single-digit tokens all parse, each to true exactly when it is not `"0"` |
| Handler.ImageShapeNeedsComma | blind_watermark-master/blind_watermark_gui/watermark_handler.py:100 | an example of the token-count rule: `"128"` is not an image shape |
| Handler.ImageShapeThreeTokens | blind_watermark-master/blind_watermark_gui/watermark_handler.py:100 | an example of the token-count rule: `"1,2,3"` is not an image shape |
| Handler.ImageShapeOfPair | blind_watermark-master/blind_watermark_gui/watermark_handler.py:100-101 | two integer tokens make the image shape of their values |
| Handler.ImageShapeUnchecked | blind_watermark-master/blind_watermark_gui/watermark_handler.py:98-103 | every pair of integers, negative and zero included, written `w,h` is accepted as that image shape |
| Handler.LengthUnchecked | blind_watermark-master/blind_watermark_gui/watermark_handler.py:104-108 | every integer, negative and zero included, is accepted as a text or bit length |
| Config.Update | blind_watermark-master/blind_watermark_gui/config.py:26 | `dict.update` with an object: the keys are the union, saved values win, other keys keep their values; an empty list or string changes nothing; the result is `None` (raises) exactly for every other non-object document |
| Config.LoadConfig | blind_watermark-master/blind_watermark_gui/config.py:15-33 | both default keys are always present and the background path is never stale; a missing or unreadable file, or a document `update` rejects, gives the defaults; a saved object overrides the defaults key by key, keeps unknown keys, and has its background path reset to `""` exactly when that path is stale; the result is `LoadedFrom` of the file and the existence test |
| Background.CoverFit | blind_watermark-master/blind_watermark_gui/background.py:83-98 | scaling by the larger axis ratio with truncation covers the window on both axes and fits one side exactly; the crop box is exactly the window's size, lies inside the resized picture and is centred to within one pixel |
| Background.ScaleCovers | blind_watermark-master/blind_watermark_gui/background.py:84-90 | under exact arithmetic the truncated resize is at least the window on both axes and equal to it on one |
| Background.ScaleByWidth | blind_watermark-master/blind_watermark_gui/background.py:85-90 | scaling by the width ratio, when it is the larger, fits the width exactly and covers the height |
| Background.ScaleByHeight | blind_watermark-master/blind_watermark_gui/background.py:86-90 | scaling by the height ratio, when it is the larger, fits the height exactly and covers the width |
| Background.CentredBoxFits | blind_watermark-master/blind_watermark_gui/background.py:96-98 | the `//`-centred box is exactly window-sized, has non-negative offsets and lies inside the resized picture |
| Background.RatioTest | blind_watermark-master/blind_watermark_gui/background.py:191 | comparing aspect ratios picks the same axis as comparing the two axis scales |
| Background.RatioSides | blind_watermark-master/blind_watermark_gui/background.py:193-196 | deriving a side from the aspect ratio equals scaling it by the other axis's ratio |
| Background.PreviewIsCoverFit | blind_watermark-master/blind_watermark_gui/background.py:186-203 | in either branch the preview equals the cover fit of a 400x220 window, so it covers the box and its crop is exactly 400x220 |
| Background.PreviewOf | blind_watermark-master/blind_watermark_gui/background.py:177-225 | the preview of a configuration: the 400x220 cover fit exactly when the configured path exists and decodes, the `暂无背景图片` placeholder exactly when there is no path or no such file, `加载预览失败` exactly when something raised, and a picture exactly when the text is empty |
| Background.OnResize | blind_watermark-master/blind_watermark_gui/background.py:111-127 | events from other widgets and repeated sizes change nothing; otherwise the size is recorded, the old timer is cancelled and exactly one new timer is scheduled; well-formedness is preserved |
| Background.Fire | blind_watermark-master/blind_watermark_gui/background.py:127 | a fired timer leaves the schedule empty and keeps the recorded size and timer id |
| Background.AtMostOnePending | blind_watermark-master/blind_watermark_gui/background.py:111-127 | a well-formed debounce state has at most one timer scheduled |
| Background.ReplayKeepsOneTimer | blind_watermark-master/blind_watermark_gui/background.py:111-127 | after any run of events at most one timer is scheduled, and the recorded size is the last size the root window reported |
| Background.BurstLeavesOneTimer | blind_watermark-master/blind_watermark_gui/background.py:120-127 | a burst that ends with a new root size leaves exactly the newest timer scheduled |
| Background.BackgroundManager.constructor | blind_watermark-master/blind_watermark_gui/background.py:11-34 | the saved path is kept only when truthy; no picture, label, preview or timer yet |
| Background.BackgroundManager.UpdateBackground | blind_watermark-master/blind_watermark_gui/background.py:72-109 | nothing happens without a picture or when a window side is at most 1; otherwise the shown image is the cover fit of the window; a decode error or a missing label is raised |
| Background.BackgroundManager.OnWindowResize | blind_watermark-master/blind_watermark_gui/background.py:111-127 | the timer state moves exactly as `OnResize`, so at most one timer stays scheduled |
| Background.BackgroundManager.FireTimer | blind_watermark-master/blind_watermark_gui/background.py:127 | the fired timer leaves the schedule; with a decodable picture and a laid-out window the image becomes the cover fit of the window and the label shows it, otherwise image and label are left alone; the error raised is that of `update_background` |
| Background.BackgroundManager.LoadBackgroundImage | blind_watermark-master/blind_watermark_gui/background.py:50-70 | success iff the picture opens and the refit raises nothing; success records the path in the manager and in the config and appends one save; any failure leaves the config and saves alone and shows one `加载背景图片失败: ` dialog; an open failure also leaves path, picture and image alone; an opened picture is recorded, and is fitted and shown when the window is laid out and it decodes, the image and label being unchanged otherwise |
| Background.BackgroundManager.ClearBackgroundImage | blind_watermark-master/blind_watermark_gui/background.py:147-173 | path, picture and image become `None`, the config entry becomes `""` and is saved, and the open settings page shows no picture; every written value is independent of the old state and an already cleared entry stays as it is, so a second call leaves the same state |
| Background.BackgroundManager.UpdatePreviewImage | blind_watermark-master/blind_watermark_gui/background.py:175-225 | without a preview label nothing changes; otherwise the preview becomes `PreviewOf` the current configuration |
| Background.BackgroundManager.ChooseBackgroundImage | blind_watermark-master/blind_watermark_gui/background.py:129-145 | a cancelled dialog changes nothing; otherwise a successful load puts the chosen path in the config and saves, a failed one leaves config and saves alone and adds one `加载背景图片失败: ` dialog; the path display shows the chosen path; the preview is refreshed from the configuration as it now stands (the old one after a failed load), with its own `Image.open` result |
| Background.BackgroundManager.CreateBackground | blind_watermark-master/blind_watermark_gui/background.py:36-43 | the label exists afterwards; without a saved path nothing is loaded and the label is empty; a saved path is loaded: path and picture are recorded when it opens, the config is rewritten with the same entry on success, a failure shows one `加载背景图片失败: ` dialog; the label shows the cover fit exactly when the picture opens, decodes and the window is laid out, and is empty otherwise (as on a 1x1 startup window) |
| Components.NavPages | blind_watermark-master/blind_watermark_gui/components.py:83-90 | the navigation table's page names, each entry's page included and nothing else |
| Components.NavPagesDistinct | blind_watermark-master/blind_watermark_gui/components.py:83-87 | no page name appears twice in the navigation table |
| Components.SelectOnly | blind_watermark-master/blind_watermark_gui/components.py:150-160 | one value per name, `on` exactly for the active name and `off` for every other |
| Components.ExactlyOneSelected | blind_watermark-master/blind_watermark_gui/components.py:150-160 | when the active name is among the names, exactly it is selected |
| Components.NoneSelected | blind_watermark-master/blind_watermark_gui/components.py:150-160 | when the active name is not among the names, nothing is selected |
| Components.ButtonFor | blind_watermark-master/blind_watermark_gui/components.py:92-107 | a button's command shows its own page; it keeps the entry's label and row and starts inactive |
| Components.HighlightIsExclusive | blind_watermark-master/blind_watermark_gui/components.py:150-160 | after `update_nav_buttons(a)` exactly the button `a` is active when `a` is in the table, and none otherwise |
| Components.Sidebar.constructor | blind_watermark-master/blind_watermark_gui/components.py:12-45 | the buttons are exactly the navigation table, each showing its own page and inactive, and the selected theme switch reads `"dark"` |
| Components.Sidebar.CreateNavButtons | blind_watermark-master/blind_watermark_gui/components.py:81-90 | one button per table entry, keyed by its page, in table order |
| Components.Sidebar.AddNavButtons | blind_watermark-master/blind_watermark_gui/components.py:89-90 | the loop over distinct entries yields exactly their pages as keys, in order, each with its entry's button |
| Components.Sidebar.UpdateNavButtons | blind_watermark-master/blind_watermark_gui/components.py:144-160 | the button named `active` becomes active and every other button inactive; labels, rows and commands are unchanged |
| Components.Sidebar.GetTheme | blind_watermark-master/blind_watermark_gui/components.py:162-164 | `"dark"` when there is no switch, the switch's value otherwise |
| App.RegisteredPagesAreNavPages | blind_watermark-master/blind_watermark_gui/app.py:132-152 | the registered pages are exactly the navigation table's pages: home, embed and extract |
| App.BlindWatermarkGui.constructor | blind_watermark-master/blind_watermark_gui/app.py:18-64 | afterwards home is the current and only shown page and the only highlighted button, the pages are home, embed and extract, the inputs have their defaults and the theme is `"dark"` |
| App.BlindWatermarkGui.CreateLayout | blind_watermark-master/blind_watermark_gui/app.py:101-130 | the sidebar and the pages are made and home is shown |
| App.BlindWatermarkGui.MakeBackground | blind_watermark-master/blind_watermark_gui/app.py:30-37 | the manager's configuration is exactly what `load_config` returns (`Config.LoadedFrom`: defaults, the merge and the stale-path reset), with both default keys, and its label exists |
| App.BlindWatermarkGui.MakeSidebar | blind_watermark-master/blind_watermark_gui/app.py:108-112 | one button per registered page, each showing its own page, and the theme reads `"dark"` |
| App.BlindWatermarkGui.InitVariables | blind_watermark-master/blind_watermark_gui/app.py:73-82 | both passwords `"1"`, shape `"128,128"`, mode `"str"`, the paths and the content empty |
| App.BlindWatermarkGui.CreatePages | blind_watermark-master/blind_watermark_gui/app.py:132-152 | home, embed and extract are registered, none shown yet |
| App.BlindWatermarkGui.ShowPage | blind_watermark-master/blind_watermark_gui/app.py:154-170 | the current page becomes the name; every page is hidden and only the named one shown; the same name is highlighted; an unregistered name raises after the pages are hidden and leaves the buttons unchanged |
| App.BlindWatermarkGui.HidePages | blind_watermark-master/blind_watermark_gui/app.py:162-164 | every registered page is hidden and the set of registered pages is unchanged |
| App.BlindWatermarkGui.ClickNavButton | blind_watermark-master/blind_watermark_gui/components.py:104 | a navigation click never raises and leaves exactly its own page shown |
| App.BlindWatermarkGui.ToggleTheme | blind_watermark-master/blind_watermark_gui/app.py:172-175 | the appearance follows the switch, `"dark"` when there is none |
| LegacyGui.EmbedDialog | blind_watermark-master/blind_watermark_gui.py:220-228 | an error dialog with the message exactly on failure; a success dialog starts with `水印嵌入成功！`, reports the library's length when there is one, and is exactly `水印嵌入成功！` otherwise |
| LegacyGui.ExtractDialogs | blind_watermark-master/blind_watermark_gui.py:268-302 | no dialog for an unknown mode, otherwise exactly one: an error with the message on failure, the mode's success text naming the output path on success |
| LegacyGui.BlindWatermarkGui.constructor | blind_watermark-master/blind_watermark_gui.py:10-26 | both passwords `"1"`, shape `"128,128"`, mode `"str"`, paths and content empty; the text input is shown with the text label |
| LegacyGui.BlindWatermarkGui.UpdateWmInput | blind_watermark-master/blind_watermark_gui.py:132-144 | the content input is shown iff the mode is `str` or `bit`, the image input otherwise; the label depends on the mode |
| LegacyGui.BlindWatermarkGui.SetMode | blind_watermark-master/blind_watermark_gui.py:91 | writing the shared mode variable runs `update_wm_input`: the content input with its own label for `str` and `bit`, the image input otherwise, with the label kept |
| LegacyGui.BlindWatermarkGui.ReportError | blind_watermark-master/blind_watermark_gui.py:179 | exactly one error dialog is added |
| LegacyGui.BlindWatermarkGui.CheckEmbedInputs | blind_watermark-master/blind_watermark_gui.py:178-198 | the tab's checks give exactly the handler's validation result on the tab's variables |
| LegacyGui.BlindWatermarkGui.CheckExtractInputs | blind_watermark-master/blind_watermark_gui.py:233-259 | the tab's checks and shape parse give exactly the handler's validation result |
| LegacyGui.BlindWatermarkGui.EmbedWatermark | blind_watermark-master/blind_watermark_gui.py:175-228 | the calls are exactly the handler's `embed_watermark` calls on the same inputs, and one dialog shows its outcome; a failed check makes no call |
| LegacyGui.BlindWatermarkGui.EmbedChecked | blind_watermark-master/blind_watermark_gui.py:200-228 | past the checks, the calls and the dialog are those of the handler's `EmbedWith` |
| LegacyGui.BlindWatermarkGui.EmbedBuilt | blind_watermark-master/blind_watermark_gui.py:206-228 | with both passwords parsed, the calls and the dialog are those of the handler's `EmbedAs` |
| LegacyGui.BlindWatermarkGui.ExtractWatermark | blind_watermark-master/blind_watermark_gui.py:230-302 | the calls are exactly the handler's `extract_watermark` calls, the dialogs show its outcome, and the result widget shows the heading and the text exactly when the text-file write was attempted, also when that write raises, since the widget is filled before the file is opened |
| LegacyGui.BlindWatermarkGui.ExtractChecked | blind_watermark-master/blind_watermark_gui.py:261-302 | past the checks, the calls, dialogs and result widget follow the handler's `ExtractWith` |
| LegacyGui.BlindWatermarkGui.ExtractBuilt | blind_watermark-master/blind_watermark_gui.py:262-302 | with both passwords parsed, they follow the handler's `ExtractAs` |
| LegacyGui.BlindWatermarkGui.ExtractIn | blind_watermark-master/blind_watermark_gui.py:267-299 | the mode dispatch follows the handler's `ExtractBy` |
| LegacyGui.BlindWatermarkGui.ExtractImage | blind_watermark-master/blind_watermark_gui.py:268-275 | mode `img` follows the handler's `ExtractBy` and ends with the extract call |
| LegacyGui.BlindWatermarkGui.ExtractText | blind_watermark-master/blind_watermark_gui.py:276-299 | modes `str` and `bit` follow `ExtractBy`, and the result widget shows the heading and the extracted text before the file is written |

## Left out

- The `WaterMark` library (`read_img`, `read_wm`, `embed`, `extract`, `wm_bit`) is not part of this model. Its calls are the `Env` parameter, and each may raise. The number `Env.embed` returns stands for `len(bwm.wm_bit)` after the embed.
- `int()` is modelled on ASCII digits only. Python also accepts other Unicode decimal digits, and those are not modelled. The white space `int()` skips around the number is `PyText.IsSpace`.
- IntRoundTrip: the model's `int()` and `str()` accept any number of digits. CPython 3.11 and later (and the 3.7.14, 3.8.14, 3.9.14 and 3.10.7 security releases) raise `ValueError` when a decimal conversion exceeds 4300 digits, so a password, shape or length of more than 4300 digits is accepted by the model where the program reports an error. `PyText.ParseInt` does not model that limit.
- IntError: Python's message quotes at most the first 200 characters of the input (`%.200R`); the model quotes the whole input.
- `Handler.IntError`: the text of `int()`'s `ValueError` quotes the input with plain single quotes. Python's `repr` quoting of inputs that contain quotes or control characters is not modelled.
- Floating point: the cover-fit and preview arithmetic is exact real arithmetic with floor. In Python floats `int(iw * (w / iw))` can come out one below `w`. The extract threshold compares exact reals with 0.5, and NaN is not modelled.
- Pictures are their dimensions and whether their pixels decode. PIL pixel data, LANCZOS resampling and `CTkImage` are not modelled.
- Tk's `after` and `after_cancel` have no time in the model. The scheduled timers are a set of ids, and a timer firing is the explicit step `FireTimer`.
- Widget construction, layout and styling are not modelled: the home, embed, extract and settings pages, `create_section`, `create_feature_card`, `styles.py`, `_center_window` and `ensure_background_at_bottom`'s stacking order. A page is just whether it is shown, and a button is its label, row, command and style.
- `save_config` writes JSON to a file. That I/O is not modelled: each save appends a snapshot of the config to `saves`.
- The extract output-file write and its text encoding (UTF-8 for `str`, the platform default for `bit`) are not modelled. A write is the `WriteText` call, which may raise.
- `Config.Update`: `dict.update` given a non-empty list of key-value pairs is treated as raising. That form of the saved document is not modelled.
- The main window's `config` and the manager's `config` are one shared dict. The model keeps it only in the manager, because the window itself never writes it.
- Message boxes are recorded as the dialogs shown. `messagebox` blocking and the settings page's own widgets are not modelled. The settings page's effect on the manager (`preview_label`, `bg_path_var`) is the fields `hasPreviewLabel`, `hasPathVar` and `pathText`.
- The legacy tool's file dialogs (`browse_*`), its tab construction (`create_widgets`, `build_embed_tab`, `build_extract_tab`) and the user's theme switching are not modelled. The shared variables are the class's fields, and `SetMode` is a write to the shared mode variable.
- `file_browser.py`, `main.py` and `pages/__init__.py` are not part of this model.
