/**
 * `blind_watermark_gui.py`: the older single-window tool with an embed tab
 * and an extract tab. Its inputs are tk `StringVar`s shared by both tabs, it
 * reports through message boxes and shows extracted text in a text widget.
 * The checks, parses and the collaborator calls are those of the handler; the
 * success texts differ.
 */
module LegacyGui {
  import opened PyText
  import opened Handler

  /** `messagebox.showerror(title, text)` or `messagebox.showinfo(title, text)`. */
  datatype Dialog = ShowError(title: string, text: string) | ShowInfo(title: string, text: string)

  const ErrorTitle := "错误"
  const SuccessTitle := "成功"

  /** The two labels of the content input. */
  const TextLabel := "水印文本:"
  const BitsLabel := "二进制数据(用逗号分隔):"

  const TextResultHeading := "提取的文本水印:\n"
  const BitsResultHeading := "提取的二进制水印:\n"

  /** The dialog closing `embed_watermark`: an error with the handler's
      message, or a success that reports the watermark length when there is
      one (modes `str` and `bit`). */
  function EmbedDialog(r: Response<nat>): (d: Dialog)
    ensures d.ShowError? <==> !r.success
    ensures d.ShowError? ==> d == ShowError(ErrorTitle, r.message)
    ensures d.ShowInfo? ==> d.title == SuccessTitle && IsPrefix(MsgEmbedOk, d.text)
    ensures d.ShowInfo? && r.payload.None? ==> d.text == MsgEmbedOk
    ensures r.success && r.payload.Some? ==> d == ShowInfo(SuccessTitle, LengthReport(r.payload.value))
  {
    if !r.success then ShowError(ErrorTitle, r.message)
    else match r.payload
      case Some(n) => ShowInfo(SuccessTitle, LengthReport(n))
      case None => ShowInfo(SuccessTitle, MsgEmbedOk)
  }

  /** The embed success text that reports the watermark length. */
  function LengthReport(n: nat): string
  {
    MsgEmbedOk + "\n水印长度: " + NatToString(n) + "\n(提取时需使用此长度)"
  }

  /** The success text of `extract_watermark` in each mode. */
  function ExtractOkText(mode: string, output: string): string
  {
    (if mode == "img" then "图片水印提取成功！" else if mode == "str" then "文本水印提取成功！" else "二进制水印提取成功！")
    + "\n已保存至: " + output
  }

  /** The dialogs closing `extract_watermark`: none when the mode matched no
      branch, otherwise one error or one success. */
  function ExtractDialogs(mode: string, output: string, r: Option<Response<string>>): (ds: seq<Dialog>)
    ensures r.None? <==> ds == []
    ensures r.Some? ==> |ds| == 1 && (ds[0].ShowError? <==> !r.value.success)
    ensures r.Some? && !r.value.success ==> ds == [ShowError(ErrorTitle, r.value.message)]
    ensures r.Some? && r.value.success ==> ds == [ShowInfo(SuccessTitle, ExtractOkText(mode, output))]
  {
    match r
    case None => []
    case Some(resp) =>
      if resp.success then [ShowInfo(SuccessTitle, ExtractOkText(mode, output))]
      else [ShowError(ErrorTitle, resp.message)]
  }

  /** The heading of the extract result text in modes `str` and `bit`. */
  function ResultHeading(mode: string): string
  {
    if mode == "str" then TextResultHeading else BitsResultHeading
  }

  /** The text widget after a run that made the calls `cs`, starting from
      `before`: it shows the heading and the text exactly when the run
      attempted the text-file write, also when that write raised, because the
      widget is filled before the file is opened; it is left alone otherwise. */
  function ResultAfter(mode: string, cs: seq<Call>, before: string): string
  {
    if cs != [] && cs[|cs| - 1].WriteText? then ResultHeading(mode) + cs[|cs| - 1].text else before
  }

  class BlindWatermarkGui {
    /** The `StringVar`s. Both tabs use `originalImgPath` (the original image
        when embedding, the marked image when extracting), `outputImgPath`
        and `wmMode`. */
    var originalImgPath: string
    var watermarkContent: string
    var watermarkImgPath: string
    var outputImgPath: string
    var passwordImg: string
    var passwordWm: string
    var wmShape: string
    var wmMode: string
    /** Which watermark input `update_wm_input` shows, and the content label. */
    var contentInputShown: bool
    var imageInputShown: bool
    var contentLabel: string
    /** The contents of the `extract_result` text widget. */
    var extractResult: string
    /** Every message box shown so far. */
    var dialogs: seq<Dialog>
    /** Every call made into the `WaterMark` library and the file system. */
    var calls: seq<Call>

    /** The request the embed tab makes of its variables. */
    function EmbedReq(): EmbedRequest
      reads this`originalImgPath, this`outputImgPath, this`passwordImg, this`passwordWm, this`wmMode,
            this`watermarkContent, this`watermarkImgPath
    {
      EmbedRequest(originalImgPath, outputImgPath, passwordImg, passwordWm, wmMode,
                   Some(watermarkContent), Some(watermarkImgPath))
    }

    /** The request the extract tab makes of the same variables. */
    function ExtractReq(): ExtractRequest
      reads this`originalImgPath, this`outputImgPath, this`passwordImg, this`passwordWm, this`wmMode, this`wmShape
    {
      ExtractRequest(originalImgPath, outputImgPath, passwordImg, passwordWm, wmMode, wmShape)
    }

    /** `__init__` and `create_widgets`: the variable defaults, then the
        initial `update_wm_input`, which shows the text input. */
    constructor ()
      ensures originalImgPath == "" && watermarkContent == "" && watermarkImgPath == "" && outputImgPath == ""
      ensures passwordImg == "1" && passwordWm == "1" && wmShape == "128,128" && wmMode == "str"
      ensures contentInputShown && !imageInputShown && contentLabel == TextLabel
      ensures extractResult == "" && dialogs == [] && calls == []
    {
      originalImgPath := "";
      watermarkContent := "";
      watermarkImgPath := "";
      outputImgPath := "";
      passwordImg := "1";
      passwordWm := "1";
      wmShape := "128,128";
      wmMode := "str";
      contentInputShown := true;
      imageInputShown := false;
      contentLabel := TextLabel;
      extractResult := "";
      dialogs := [];
      calls := [];
      new;
      UpdateWmInput();
    }

    /** `update_wm_input`: modes `str` and `bit` show the content input with
        their own label, every other mode shows the image-path input. */
    method UpdateWmInput()
      modifies this`contentInputShown, this`imageInputShown, this`contentLabel
      ensures contentInputShown <==> wmMode == "str" || wmMode == "bit"
      ensures imageInputShown <==> !contentInputShown
      ensures wmMode == "str" ==> contentLabel == TextLabel
      ensures wmMode == "bit" ==> contentLabel == BitsLabel
      ensures wmMode != "str" && wmMode != "bit" ==> contentLabel == old(contentLabel)
    {
      var mode := wmMode;
      if mode == "str" || mode == "bit" {
        contentInputShown := true;
        imageInputShown := false;
        if mode == "str" {
          contentLabel := TextLabel;
        } else {
          contentLabel := BitsLabel;
        }
      } else {
        contentInputShown := false;
        imageInputShown := true;
      }
    }

    /** A write to `wm_mode` (a radio button of either tab) runs the
        `trace_add` callback `update_wm_input`. */
    method SetMode(mode: string)
      modifies this`wmMode, this`contentInputShown, this`imageInputShown, this`contentLabel
      ensures wmMode == mode
      ensures contentInputShown <==> mode == "str" || mode == "bit"
      ensures imageInputShown <==> !contentInputShown
      ensures mode == "str" ==> contentLabel == TextLabel
      ensures mode == "bit" ==> contentLabel == BitsLabel
      ensures mode != "str" && mode != "bit" ==> contentLabel == old(contentLabel)
    {
      wmMode := mode;
      UpdateWmInput();
    }

    /** `messagebox.showerror("错误", text)`. */
    method ReportError(text: string)
      modifies this`dialogs
      ensures dialogs == old(dialogs) + [ShowError(ErrorTitle, text)]
    {
      dialogs := dialogs + [ShowError(ErrorTitle, text)];
    }

    /** The checks at the head of `embed_watermark`, in source order; on
        success the parsed bits (empty unless the mode is `bit`). */
    method CheckEmbedInputs() returns (r: Checked<seq<bool>>)
      ensures r == ValidateEmbed(EmbedReq())
    {
      if originalImgPath == "" {
        return Invalid(MsgNoOriginal);
      }
      var mode := wmMode;
      if mode == "str" && watermarkContent == "" {
        return Invalid(MsgNoText);
      }
      if mode == "img" && watermarkImgPath == "" {
        return Invalid(MsgNoWmImage);
      }
      var bits: seq<bool> := [];
      if mode == "bit" {
        var parsed := BoolsOf(Split(watermarkContent, ','));
        if parsed.None? {
          return Invalid(MsgBadBits);
        }
        bits := parsed.value;
      }
      if outputImgPath == "" {
        return Invalid(MsgNoOutput);
      }
      return Valid(bits);
    }

    /** The checks at the head of `extract_watermark`: the three presence
        checks, then the shape parse. */
    method CheckExtractInputs() returns (r: Checked<Shape>)
      ensures r == ValidateExtract(ExtractReq())
    {
      if originalImgPath == "" {
        return Invalid(MsgNoMarked);
      }
      if wmShape == "" {
        return Invalid(MsgNoShape);
      }
      if outputImgPath == "" {
        return Invalid(MsgNoResultPath);
      }
      if wmMode == "img" {
        var ts := Split(wmShape, ',');
        if |ts| != 2 || ParseInt(ts[0]).None? || ParseInt(ts[1]).None? {
          return Invalid(MsgBadImgShape);
        }
        return Valid(WidthHeight(ParseInt(ts[0]).value, ParseInt(ts[1]).value));
      }
      var n := ParseInt(wmShape);
      if n.None? {
        return Invalid(MsgBadLength);
      }
      return Valid(Length(n.value));
    }

    /** `embed_watermark`: the checks return early with an error dialog and
        before any `WaterMark` is built; every exception after them becomes
        one `嵌入失败: ` dialog. The calls and the outcome are exactly those
        of the handler's `embed_watermark` on the same inputs. */
    method EmbedWatermark(env: Env)
      modifies this`dialogs, this`calls
      ensures calls == old(calls) + old(Handler.EmbedWatermark(EmbedReq(), env)).calls
      ensures dialogs == old(dialogs) + [EmbedDialog(old(Handler.EmbedWatermark(EmbedReq(), env)).result)]
      ensures ValidateEmbed(EmbedReq()).Invalid? ==> calls == old(calls)
    {
      var checked := CheckEmbedInputs();
      if checked.Invalid? {
        ReportError(checked.message);
        return;
      }
      var bits := checked.value;
      var mode := wmMode;
      var wm := if mode == "str" then TextWm(watermarkContent)
        else if mode == "img" then ImageWm(watermarkImgPath)
        else if mode == "bit" then BitsWm(bits)
        else NoWm;
      assert wm == WatermarkFor(EmbedReq(), bits);
      EmbedChecked(env, wm);
    }

    /** `embed_watermark` past its checks: the passwords, the `WaterMark`,
        then `read_img`, `read_wm(wm)` and `embed`. */
    method EmbedChecked(env: Env, wm: Watermark)
      modifies this`dialogs, this`calls
      ensures calls == old(calls) + old(EmbedWith(EmbedReq(), env, wm)).calls
      ensures dialogs == old(dialogs) + [EmbedDialog(old(EmbedWith(EmbedReq(), env, wm)).result)]
    {
      ghost var r := EmbedWith(EmbedReq(), env, wm);
      var pi := ParseInt(passwordImg);
      if pi.None? {
        assert r == Run(EmbedFailure(IntError(passwordImg)), []);
        ReportError(EmbedFailed + IntError(passwordImg));
        return;
      }
      var pw := ParseInt(passwordWm);
      if pw.None? {
        assert r == Run(EmbedFailure(IntError(passwordWm)), []);
        ReportError(EmbedFailed + IntError(passwordWm));
        return;
      }
      assert r == EmbedAs(EmbedReq(), env, wm, (pi.value, pw.value));
      EmbedBuilt(env, wm, pi.value, pw.value);
    }

    /** `embed_watermark` once both passwords are integers: `WaterMark(a, b)`,
        then `read_img`, `read_wm(wm)` and `embed`. */
    method EmbedBuilt(env: Env, wm: Watermark, a: int, b: int)
      modifies this`dialogs, this`calls
      ensures calls == old(calls) + old(EmbedAs(EmbedReq(), env, wm, (a, b))).calls
      ensures dialogs == old(dialogs) + [EmbedDialog(old(EmbedAs(EmbedReq(), env, wm, (a, b))).result)]
    {
      ghost var r := EmbedAs(EmbedReq(), env, wm, (a, b));
      var ctor := NewWaterMark(a, b);
      calls := calls + [ctor];
      var failed := env.newWaterMark(a, b);
      if failed.Some? {
        assert r == Run(EmbedFailure(failed.value), [ctor]);
        assert EmbedDialog(r.result) == ShowError(ErrorTitle, EmbedFailed + failed.value);
        dialogs := dialogs + [ShowError(ErrorTitle, EmbedFailed + failed.value)];
        return;
      }
      var call := EmbedInto(originalImgPath, wm, outputImgPath);
      calls := calls + [call];
      var outcome := env.embed(originalImgPath, wm, outputImgPath);
      if outcome.Raised? {
        assert r == Run(EmbedFailure(outcome.message), [ctor, call]);
        assert EmbedDialog(r.result) == ShowError(ErrorTitle, EmbedFailed + outcome.message);
        dialogs := dialogs + [ShowError(ErrorTitle, EmbedFailed + outcome.message)];
        return;
      }
      var mode := wmMode;
      var text := if mode == "str" || mode == "bit" then LengthReport(outcome.value) else MsgEmbedOk;
      assert r.calls == [ctor, call];
      assert r.result == Response(true, MsgEmbedOk, if mode == "str" || mode == "bit" then Some(outcome.value) else None);
      assert EmbedDialog(r.result) == ShowInfo(SuccessTitle, text);
      dialogs := dialogs + [ShowInfo(SuccessTitle, text)];
    }

    /** `extract_watermark`: the three presence checks and the shape parse
        return early with an error dialog; in modes `str` and `bit` the text
        widget shows the extracted text before it is written to the output
        file; a mode outside `img`, `str` and `bit` shows nothing. The calls
        and the outcome are exactly those of the handler's
        `extract_watermark` on the same inputs. */
    method ExtractWatermark(env: Env)
      modifies this`dialogs, this`calls, this`extractResult
      ensures calls == old(calls) + old(Handler.ExtractWatermark(ExtractReq(), env)).calls
      ensures dialogs == old(dialogs) + ExtractDialogs(wmMode, outputImgPath, old(Handler.ExtractWatermark(ExtractReq(), env)).result)
      ensures extractResult == ResultAfter(wmMode, old(Handler.ExtractWatermark(ExtractReq(), env)).calls, old(extractResult))
    {
      ghost var r := Handler.ExtractWatermark(ExtractReq(), env);
      var checked := CheckExtractInputs();
      if checked.Invalid? {
        assert r == Run(Some(Response(false, checked.message, None)), []);
        ReportError(checked.message);
        return;
      }
      assert r == ExtractWith(ExtractReq(), env, checked.value);
      ExtractChecked(env, checked.value);
    }

    /** `extract_watermark` past its checks: the passwords, the `WaterMark`,
        then the mode dispatch. */
    method ExtractChecked(env: Env, shape: Shape)
      modifies this`dialogs, this`calls, this`extractResult
      ensures calls == old(calls) + old(ExtractWith(ExtractReq(), env, shape)).calls
      ensures dialogs == old(dialogs) + ExtractDialogs(wmMode, outputImgPath, old(ExtractWith(ExtractReq(), env, shape)).result)
      ensures extractResult == ResultAfter(wmMode, old(ExtractWith(ExtractReq(), env, shape)).calls, old(extractResult))
    {
      ghost var r := ExtractWith(ExtractReq(), env, shape);
      var pi := ParseInt(passwordImg);
      if pi.None? {
        assert r == Run(ExtractFailure(IntError(passwordImg)), []);
        ReportError(ExtractFailed + IntError(passwordImg));
        return;
      }
      var pw := ParseInt(passwordWm);
      if pw.None? {
        assert r == Run(ExtractFailure(IntError(passwordWm)), []);
        ReportError(ExtractFailed + IntError(passwordWm));
        return;
      }
      assert r == ExtractAs(ExtractReq(), env, shape, (pi.value, pw.value));
      ExtractBuilt(env, shape, pi.value, pw.value);
    }

    /** `extract_watermark` once both passwords are integers: `WaterMark(a,
        b)`, then the mode dispatch. */
    method ExtractBuilt(env: Env, shape: Shape, a: int, b: int)
      modifies this`dialogs, this`calls, this`extractResult
      ensures calls == old(calls) + old(ExtractAs(ExtractReq(), env, shape, (a, b))).calls
      ensures dialogs == old(dialogs) + ExtractDialogs(wmMode, outputImgPath, old(ExtractAs(ExtractReq(), env, shape, (a, b))).result)
      ensures extractResult == ResultAfter(wmMode, old(ExtractAs(ExtractReq(), env, shape, (a, b))).calls, old(extractResult))
    {
      ghost var r := ExtractAs(ExtractReq(), env, shape, (a, b));
      var ctor := NewWaterMark(a, b);
      calls := calls + [ctor];
      var failed := env.newWaterMark(a, b);
      if failed.Some? {
        assert r == Run(ExtractFailure(failed.value), [ctor]);
        ReportError(ExtractFailed + failed.value);
        return;
      }
      assert r == ExtractBy(ExtractReq(), env, shape, ctor);
      ExtractIn(env, shape, ctor);
    }

    /** The mode dispatch of `extract_watermark` once the `WaterMark` is
        built; `ctor` is the call that built it. */
    method ExtractIn(env: Env, shape: Shape, ghost ctor: Call)
      requires ctor.NewWaterMark?
      modifies this`dialogs, this`calls, this`extractResult
      ensures calls == old(calls) + old(ExtractBy(ExtractReq(), env, shape, ctor)).calls[1..]
      ensures dialogs == old(dialogs) + ExtractDialogs(wmMode, outputImgPath, old(ExtractBy(ExtractReq(), env, shape, ctor)).result)
      ensures extractResult == ResultAfter(wmMode, old(ExtractBy(ExtractReq(), env, shape, ctor)).calls, old(extractResult))
    {
      var mode := wmMode;
      if mode == "img" {
        ExtractImage(env, shape, ctor);
      } else if mode == "str" || mode == "bit" {
        ExtractText(env, shape, ctor);
      } else {
        assert ExtractBy(ExtractReq(), env, shape, ctor) == Run(None, [ctor]);
      }
    }

    /** Mode `img`: the library writes the watermark image itself. */
    method ExtractImage(env: Env, shape: Shape, ghost ctor: Call)
      requires wmMode == "img" && ctor.NewWaterMark?
      modifies this`dialogs, this`calls
      ensures calls == old(calls) + old(ExtractBy(ExtractReq(), env, shape, ctor)).calls[1..]
      ensures dialogs == old(dialogs) + ExtractDialogs(wmMode, outputImgPath, old(ExtractBy(ExtractReq(), env, shape, ctor)).result)
      ensures old(ExtractBy(ExtractReq(), env, shape, ctor)).calls[|old(ExtractBy(ExtractReq(), env, shape, ctor)).calls| - 1].ExtractFrom?
    {
      ghost var r := ExtractBy(ExtractReq(), env, shape, ctor);
      var call := ExtractFrom(originalImgPath, shape, "img", Some(outputImgPath));
      calls := calls + [call];
      var failed := env.extractImg(originalImgPath, shape, outputImgPath);
      if failed.Some? {
        assert r == Run(ExtractFailure(failed.value), [ctor, call]);
        ReportError(ExtractFailed + failed.value);
        return;
      }
      assert r == Run(Some(Response(true, MsgImgOk(outputImgPath), None)), [ctor, call]);
      dialogs := dialogs + [ShowInfo(SuccessTitle, ExtractOkText(wmMode, outputImgPath))];
    }

    /** Modes `str` and `bit`: the text widget shows the extracted text, then
        the text is written to the output file. */
    method ExtractText(env: Env, shape: Shape, ghost ctor: Call)
      requires (wmMode == "str" || wmMode == "bit") && ctor.NewWaterMark?
      modifies this`dialogs, this`calls, this`extractResult
      ensures calls == old(calls) + old(ExtractBy(ExtractReq(), env, shape, ctor)).calls[1..]
      ensures dialogs == old(dialogs) + ExtractDialogs(wmMode, outputImgPath, old(ExtractBy(ExtractReq(), env, shape, ctor)).result)
      ensures extractResult == ResultAfter(wmMode, old(ExtractBy(ExtractReq(), env, shape, ctor)).calls, old(extractResult))
    {
      ghost var r := ExtractBy(ExtractReq(), env, shape, ctor);
      var mode := wmMode;
      var call := ExtractFrom(originalImgPath, shape, mode, None);
      calls := calls + [call];
      var text: string;
      if mode == "str" {
        var got := env.extractStr(originalImgPath, shape);
        if got.Raised? {
          assert r == Run(ExtractFailure(got.message), [ctor, call]);
          ReportError(ExtractFailed + got.message);
          return;
        }
        text := got.value;
        assert r == Deliver(env, ExtractReq(), [ctor, call], text, MsgStrOk(outputImgPath));
      } else {
        var got := env.extractBit(originalImgPath, shape);
        if got.Raised? {
          assert r == Run(ExtractFailure(got.message), [ctor, call]);
          ReportError(ExtractFailed + got.message);
          return;
        }
        text := BitString(got.value);
        assert r == Deliver(env, ExtractReq(), [ctor, call], text, MsgBitOk(outputImgPath));
      }
      extractResult := ResultHeading(mode) + text;
      var write := WriteText(outputImgPath, text);
      calls := calls + [write];
      assert r.calls == [ctor, call, write];
      var failed := env.writeText(outputImgPath, text);
      if failed.Some? {
        assert r.result == ExtractFailure(failed.value);
        ReportError(ExtractFailed + failed.value);
        return;
      }
      assert r.result.value.success;
      dialogs := dialogs + [ShowInfo(SuccessTitle, ExtractOkText(mode, outputImgPath))];
    }
  }
}
