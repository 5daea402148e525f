/**
 * The operation pipeline of `watermark_handler.py`: `embed_watermark` and
 * `extract_watermark` validate their string inputs in a fixed order, parse
 * bit lists, shapes and passwords, dispatch to the `WaterMark` collaborator
 * and map every outcome to a `(success, message, payload)` triple.
 *
 * The collaborator and the file system are an `Env` of total functions: each
 * either returns or raises with a message (`str(e)`). Every function here also
 * returns the trace of calls it made into the `Env`, so that "no collaborator
 * was built" and "the payload is what was written" can be stated.
 */
module Handler {
  import opened PyText

  /** A call into foreign code returns a value or raises; `message` is `str(e)`. */
  datatype Raise<T> = Returned(value: T) | Raised(message: string)

  /** The parsed `wm_shape`: `(w, h)` for images, an integer length otherwise. */
  datatype Shape = WidthHeight(width: int, height: int) | Length(n: int)

  /** What `read_wm` is handed; `NoWm` when the mode matched no branch and it was not called. */
  datatype Watermark = TextWm(text: string) | ImageWm(path: string) | BitsWm(bits: seq<bool>) | NoWm

  datatype Call =
    | NewWaterMark(passwordImg: int, passwordWm: int)
    /** `read_img(imagePath)`, `read_wm(...)` and `embed(outputPath)` */
    | EmbedInto(imagePath: string, wm: Watermark, outputPath: string)
    | ExtractFrom(imagePath: string, shape: Shape, mode: string, outWmName: Option<string>)
    /** `open(path, 'w').write(text)` */
    | WriteText(path: string, text: string)

  /** The `WaterMark` library and the output file writes. `Some(m)` in an
      `Option<string>` result is an exception with message `m`. */
  datatype Env = Env(
    newWaterMark: (int, int) -> Option<string>,
    embed: (string, Watermark, string) -> Raise<nat>,
    extractImg: (string, Shape, string) -> Option<string>,
    extractStr: (string, Shape) -> Raise<string>,
    extractBit: (string, Shape) -> Raise<seq<real>>,
    writeText: (string, string) -> Option<string>)

  datatype Response<P> = Response(success: bool, message: string, payload: Option<P>)

  datatype Run<R> = Run(result: R, calls: seq<Call>)

  datatype Checked<T> = Invalid(message: string) | Valid(value: T)

  const MsgNoOriginal := "请选择原图路径"
  const MsgNoText := "请输入水印文本"
  const MsgNoWmImage := "请选择水印图片路径"
  const MsgBadBits := "二进制数据格式错误(用逗号分隔0/1)"
  const MsgNoOutput := "请选择输出图片路径"
  const MsgEmbedOk := "水印嵌入成功！"
  const EmbedFailed := "嵌入失败: "

  const MsgNoMarked := "请选择带水印图片路径"
  const MsgNoShape := "请输入水印形状/长度"
  const MsgNoResultPath := "请选择提取结果路径"
  const MsgBadImgShape := "图片水印形状格式错误(宽,高)"
  const MsgBadLength := "文本/二进制水印长度需为整数"
  const ExtractFailed := "提取失败: "

  function SavedTo(output: string): string { "\n\n已保存至:\n" + output }
  function MsgImgOk(output: string): string { "图片水印提取成功！" + SavedTo(output) }
  function MsgStrOk(output: string): string { "文本水印提取成功！" + SavedTo(output) }
  function MsgBitOk(output: string): string { "二进制水印提取成功！" + SavedTo(output) }

  /** The success message of `extract_watermark` in each of its three modes. */
  function MsgExtractOk(mode: string, output: string): string
  {
    if mode == "img" then MsgImgOk(output) else if mode == "str" then MsgStrOk(output) else MsgBitOk(output)
  }

  /** `str(e)` of the `ValueError` that `int(s)` raises (the quoting of `repr` simplified). */
  function IntError(s: string): string
  {
    "invalid literal for int() with base 10: '" + s + "'"
  }

  /** Python truthiness of an optional string argument (`None` and `""` are false). */
  predicate Truthy(s: Option<string>)
  {
    s.Some? && s.value != ""
  }

  /** `list(map(bool, map(int, tokens)))`: every token must be an integer;
      it becomes `true` exactly when it is nonzero. */
  function BoolsOf(tokens: seq<string>): (r: Option<seq<bool>>)
    ensures r.Some? <==> forall i :: 0 <= i < |tokens| ==> ParseInt(tokens[i]).Some?
    ensures r.Some? ==> |r.value| == |tokens|
    ensures r.Some? ==> forall i :: 0 <= i < |tokens| ==> r.value[i] == (ParseInt(tokens[i]).value != 0)
  {
    if tokens == [] then Some([])
    else
      match (ParseInt(tokens[0]), BoolsOf(tokens[1..]))
      case (Some(n), Some(rest)) => Some([n != 0] + rest)
      case _ => None
  }

  /** The bit-list parse of `watermark_content.split(',')`; `None` covers the
      `ValueError` of a bad token and the `AttributeError` of `None` content. */
  function ParseBits(content: Option<string>): (r: Option<seq<bool>>)
    ensures content.None? || content == Some("") ==> r.None?
    ensures r.Some? ==> content.Some? && |r.value| == |Split(content.value, ',')|
  {
    if content.None? then None
    else
      var tokens := Split(content.value, ',');
      assert content.value == "" ==> tokens == [""] && ParseInt(tokens[0]).None?;
      BoolsOf(tokens)
  }

  /** The shape parse: `w, h = map(int, s.split(','))` in mode `img`, `int(s)` otherwise.
      Signs and zero are not checked. */
  function ParseShape(mode: string, s: string): (r: Option<Shape>)
    ensures mode == "img" && r.Some? ==>
      var ts := Split(s, ',');
      && |ts| == 2 && ParseInt(ts[0]).Some? && ParseInt(ts[1]).Some?
      && r.value == WidthHeight(ParseInt(ts[0]).value, ParseInt(ts[1]).value)
    ensures mode == "img" && |Split(s, ',')| != 2 ==> r.None?
    ensures mode != "img" ==> (r.Some? <==> ParseInt(s).Some?)
    ensures mode != "img" && r.Some? ==> r.value == Length(ParseInt(s).value)
  {
    if mode == "img" then
      var ts := Split(s, ',');
      if |ts| == 2 && ParseInt(ts[0]).Some? && ParseInt(ts[1]).Some? then
        Some(WidthHeight(ParseInt(ts[0]).value, ParseInt(ts[1]).value))
      else None
    else
      match ParseInt(s)
      case Some(n) => Some(Length(n))
      case None => None
  }

  /** `int(password_img)` then `int(password_wm)`: the first to fail gives its error text. */
  function ParsePasswords(passwordImg: string, passwordWm: string): (r: Checked<(int, int)>)
    ensures r.Valid? <==> ParseInt(passwordImg).Some? && ParseInt(passwordWm).Some?
    ensures r.Valid? ==> r.value == (ParseInt(passwordImg).value, ParseInt(passwordWm).value)
    ensures ParseInt(passwordImg).None? ==> r == Invalid(IntError(passwordImg))
    ensures ParseInt(passwordImg).Some? && ParseInt(passwordWm).None? ==> r == Invalid(IntError(passwordWm))
  {
    match (ParseInt(passwordImg), ParseInt(passwordWm))
    case (None, _) => Invalid(IntError(passwordImg))
    case (_, None) => Invalid(IntError(passwordWm))
    case (Some(a), Some(b)) => Valid((a, b))
  }

  // ---------------------------------------------------------------- embed

  datatype EmbedRequest = EmbedRequest(
    originalPath: string, outputPath: string, passwordImg: string, passwordWm: string,
    mode: string, watermarkContent: Option<string>, watermarkImgPath: Option<string>)

  /** The checks of `embed_watermark`, in source order; a valid request carries
      the parsed bits (empty unless the mode is `bit`). */
  function ValidateEmbed(req: EmbedRequest): (r: Checked<seq<bool>>)
    ensures r.Valid? <==>
      && req.originalPath != ""
      && (req.mode == "str" ==> Truthy(req.watermarkContent))
      && (req.mode == "img" ==> Truthy(req.watermarkImgPath))
      && (req.mode == "bit" ==> ParseBits(req.watermarkContent).Some?)
      && req.outputPath != ""
    ensures r == Invalid(MsgNoOriginal) <==> req.originalPath == ""
    ensures r == Invalid(MsgNoText) <==>
      req.originalPath != "" && req.mode == "str" && !Truthy(req.watermarkContent)
    ensures r == Invalid(MsgNoWmImage) <==>
      req.originalPath != "" && req.mode == "img" && !Truthy(req.watermarkImgPath)
    ensures r == Invalid(MsgNoOutput) <==>
      && req.originalPath != ""
      && (req.mode == "str" ==> Truthy(req.watermarkContent))
      && (req.mode == "img" ==> Truthy(req.watermarkImgPath))
      && (req.mode == "bit" ==> ParseBits(req.watermarkContent).Some?)
      && req.outputPath == ""
    ensures r == Invalid(MsgBadBits) <==>
      req.originalPath != "" && req.mode == "bit" && ParseBits(req.watermarkContent).None?
    ensures r.Valid? && req.mode == "bit" ==> r.value == ParseBits(req.watermarkContent).value
  {
    if req.originalPath == "" then Invalid(MsgNoOriginal)
    else if req.mode == "str" && !Truthy(req.watermarkContent) then Invalid(MsgNoText)
    else if req.mode == "img" && !Truthy(req.watermarkImgPath) then Invalid(MsgNoWmImage)
    else if req.mode == "bit" && ParseBits(req.watermarkContent).None? then Invalid(MsgBadBits)
    else if req.outputPath == "" then Invalid(MsgNoOutput)
    else Valid(if req.mode == "bit" then ParseBits(req.watermarkContent).value else [])
  }

  /** The argument of `read_wm` for a validated request. */
  function WatermarkFor(req: EmbedRequest, bits: seq<bool>): Watermark
    requires ValidateEmbed(req).Valid?
  {
    if req.mode == "str" then TextWm(req.watermarkContent.value)
    else if req.mode == "img" then ImageWm(req.watermarkImgPath.value)
    else if req.mode == "bit" then BitsWm(bits)
    else NoWm
  }

  function EmbedFailure(e: string): Response<nat> { Response(false, EmbedFailed + e, None) }

  /** The text of the first step of `embed_watermark`'s `try` block that
      raises, or `None` when every step returns: `int()` of either password,
      `WaterMark(...)`, then `read_img`, `read_wm` and `embed`. */
  function EmbedRaises(req: EmbedRequest, env: Env, wm: Watermark): Option<string>
  {
    match ParsePasswords(req.passwordImg, req.passwordWm)
    case Invalid(e) => Some(e)
    case Valid(pw) =>
      if env.newWaterMark(pw.0, pw.1).Some? then env.newWaterMark(pw.0, pw.1)
      else if env.embed(req.originalPath, wm, req.outputPath).Raised? then
        Some(env.embed(req.originalPath, wm, req.outputPath).message)
      else None
  }

  /** `embed_watermark`: validation, passwords, then the collaborator. */
  function EmbedWatermark(req: EmbedRequest, env: Env): (r: Run<Response<nat>>)
    ensures ValidateEmbed(req).Invalid? ==>
      r == Run(Response(false, ValidateEmbed(req).message, None), [])
    ensures ValidateEmbed(req).Valid? && ParseInt(req.passwordImg).None? ==>
      r == Run(Response(false, EmbedFailed + IntError(req.passwordImg), None), [])
    ensures r.calls != [] ==>
      && ValidateEmbed(req).Valid?
      && ParsePasswords(req.passwordImg, req.passwordWm).Valid?
      && r.calls[0] == NewWaterMark(ParseInt(req.passwordImg).value, ParseInt(req.passwordWm).value)
    ensures |r.calls| == 2 ==>
      r.calls[1] == EmbedInto(req.originalPath, WatermarkFor(req, ValidateEmbed(req).value), req.outputPath)
    ensures |r.calls| <= 2
    ensures r.result.success ==> |r.calls| == 2 && r.result.message == MsgEmbedOk
    ensures r.result.success ==> (r.result.payload.Some? <==> req.mode == "str" || req.mode == "bit")
    ensures r.result.success && r.result.payload.Some? ==>
      env.embed(req.originalPath, WatermarkFor(req, ValidateEmbed(req).value), req.outputPath)
        == Returned(r.result.payload.value)
    ensures !r.result.success ==> r.result.payload.None?
    ensures !r.result.success && ValidateEmbed(req).Valid? ==> IsPrefix(EmbedFailed, r.result.message)
    ensures r.result.success <==>
      ValidateEmbed(req).Valid? && EmbedRaises(req, env, WatermarkFor(req, ValidateEmbed(req).value)).None?
    ensures ValidateEmbed(req).Valid? && EmbedRaises(req, env, WatermarkFor(req, ValidateEmbed(req).value)).Some? ==>
      r.result == EmbedFailure(EmbedRaises(req, env, WatermarkFor(req, ValidateEmbed(req).value)).value)
  {
    match ValidateEmbed(req)
    case Invalid(m) => Run(Response(false, m, None), [])
    case Valid(bits) => EmbedWith(req, env, WatermarkFor(req, bits))
  }

  /** `embed_watermark` past its checks: the passwords, the collaborator, then
      `read_img`, `read_wm(wm)` and `embed`. */
  function EmbedWith(req: EmbedRequest, env: Env, wm: Watermark): (r: Run<Response<nat>>)
    ensures |r.calls| <= 2
    ensures r.calls != [] ==>
      && ParsePasswords(req.passwordImg, req.passwordWm).Valid?
      && r.calls[0] == NewWaterMark(ParseInt(req.passwordImg).value, ParseInt(req.passwordWm).value)
    ensures |r.calls| == 2 ==> r.calls[1] == EmbedInto(req.originalPath, wm, req.outputPath)
    ensures r.result.success ==> |r.calls| == 2 && r.result.message == MsgEmbedOk
    ensures r.result.success ==> (r.result.payload.Some? <==> req.mode == "str" || req.mode == "bit")
    ensures r.result.success && r.result.payload.Some? ==>
      env.embed(req.originalPath, wm, req.outputPath) == Returned(r.result.payload.value)
    ensures !r.result.success ==> r.result.payload.None? && IsPrefix(EmbedFailed, r.result.message)
    ensures r.result.success <==> EmbedRaises(req, env, wm).None?
    ensures EmbedRaises(req, env, wm).Some? ==> r.result == EmbedFailure(EmbedRaises(req, env, wm).value)
    ensures ParsePasswords(req.passwordImg, req.passwordWm).Invalid? ==> r.calls == []
  {
    match ParsePasswords(req.passwordImg, req.passwordWm)
    case Invalid(e) => Run(EmbedFailure(e), [])
    case Valid(pw) => EmbedAs(req, env, wm, pw)
  }

  /** `embed_watermark` once the passwords `pw` are parsed: `WaterMark(pw)`,
      then `read_img`, `read_wm(wm)` and `embed`. */
  function EmbedAs(req: EmbedRequest, env: Env, wm: Watermark, pw: (int, int)): (r: Run<Response<nat>>)
    ensures 1 <= |r.calls| <= 2 && r.calls[0] == NewWaterMark(pw.0, pw.1)
    ensures |r.calls| == 2 ==> r.calls[1] == EmbedInto(req.originalPath, wm, req.outputPath)
    ensures r.result.success ==> |r.calls| == 2 && r.result.message == MsgEmbedOk
    ensures r.result.success ==> (r.result.payload.Some? <==> req.mode == "str" || req.mode == "bit")
    ensures r.result.success && r.result.payload.Some? ==>
      env.embed(req.originalPath, wm, req.outputPath) == Returned(r.result.payload.value)
    ensures !r.result.success ==> r.result.payload.None? && IsPrefix(EmbedFailed, r.result.message)
    ensures env.newWaterMark(pw.0, pw.1).Some? ==>
      r == Run(EmbedFailure(env.newWaterMark(pw.0, pw.1).value), [NewWaterMark(pw.0, pw.1)])
    ensures env.newWaterMark(pw.0, pw.1).None? ==>
      |r.calls| == 2 && (r.result.success <==> env.embed(req.originalPath, wm, req.outputPath).Returned?)
    ensures env.newWaterMark(pw.0, pw.1).None? && env.embed(req.originalPath, wm, req.outputPath).Raised? ==>
      r.result == EmbedFailure(env.embed(req.originalPath, wm, req.outputPath).message)
  {
    var ctor := NewWaterMark(pw.0, pw.1);
    match env.newWaterMark(pw.0, pw.1)
    case Some(e) => Run(EmbedFailure(e), [ctor])
    case None =>
      var call := EmbedInto(req.originalPath, wm, req.outputPath);
      match env.embed(req.originalPath, wm, req.outputPath)
      case Raised(e) => Run(EmbedFailure(e), [ctor, call])
      case Returned(n) =>
        var length := if req.mode == "str" || req.mode == "bit" then Some(n) else None;
        Run(Response(true, MsgEmbedOk, length), [ctor, call])
  }

  // -------------------------------------------------------------- extract

  datatype ExtractRequest = ExtractRequest(
    imgPath: string, outputPath: string, passwordImg: string, passwordWm: string,
    mode: string, wmShape: string)

  /** The checks of `extract_watermark`: the three presence checks, then the shape parse. */
  function ValidateExtract(req: ExtractRequest): (r: Checked<Shape>)
    ensures r.Valid? <==>
      req.imgPath != "" && req.wmShape != "" && req.outputPath != "" && ParseShape(req.mode, req.wmShape).Some?
    ensures r.Valid? ==> r.value == ParseShape(req.mode, req.wmShape).value
    ensures r == Invalid(MsgNoMarked) <==> req.imgPath == ""
    ensures r == Invalid(MsgNoShape) <==> req.imgPath != "" && req.wmShape == ""
    ensures r == Invalid(MsgNoResultPath) <==> req.imgPath != "" && req.wmShape != "" && req.outputPath == ""
    ensures r == Invalid(MsgBadImgShape) <==>
      req.imgPath != "" && req.wmShape != "" && req.outputPath != "" && req.mode == "img"
      && ParseShape(req.mode, req.wmShape).None?
    ensures r == Invalid(MsgBadLength) <==>
      req.imgPath != "" && req.wmShape != "" && req.outputPath != "" && req.mode != "img"
      && ParseInt(req.wmShape).None?
  {
    if req.imgPath == "" then Invalid(MsgNoMarked)
    else if req.wmShape == "" then Invalid(MsgNoShape)
    else if req.outputPath == "" then Invalid(MsgNoResultPath)
    else
      match ParseShape(req.mode, req.wmShape)
      case Some(shape) => Valid(shape)
      case None => Invalid(if req.mode == "img" then MsgBadImgShape else MsgBadLength)
  }

  /** `['1' if x >= 0.5 else '0' for x in values]` */
  function Thresholded(values: seq<real>): (r: seq<string>)
    ensures |r| == |values|
    ensures forall i :: 0 <= i < |values| ==> r[i] == (if values[i] >= 0.5 then "1" else "0")
  {
    seq(|values|, i requires 0 <= i < |values| => if values[i] >= 0.5 then "1" else "0")
  }

  /** The bit-mode output text: the thresholded values joined with commas. */
  function BitString(values: seq<real>): string
  {
    Join(Thresholded(values), ',')
  }

  function ExtractFailure(e: string): Option<Response<string>> { Some(Response(false, ExtractFailed + e, None)) }

  /** The text of the first step of a mode branch of `extract_watermark`
      that raises, or `None` when every step returns: `extract` (which writes
      the file itself in mode `img`), then the write of the text file in modes
      `str` and `bit`. A mode outside the three makes no call. */
  function ModeRaises(req: ExtractRequest, env: Env, shape: Shape): Option<string>
  {
    if req.mode == "img" then env.extractImg(req.imgPath, shape, req.outputPath)
    else if req.mode == "str" then
      match env.extractStr(req.imgPath, shape)
      case Raised(e) => Some(e)
      case Returned(text) => env.writeText(req.outputPath, text)
    else if req.mode == "bit" then
      match env.extractBit(req.imgPath, shape)
      case Raised(e) => Some(e)
      case Returned(values) => env.writeText(req.outputPath, BitString(values))
    else None
  }

  /** The text of the first step of `extract_watermark`'s `try` block that
      raises, or `None` when every step returns: `int()` of either password,
      `WaterMark(...)`, then the mode branch. */
  function ExtractRaises(req: ExtractRequest, env: Env, shape: Shape): Option<string>
  {
    match ParsePasswords(req.passwordImg, req.passwordWm)
    case Invalid(e) => Some(e)
    case Valid(pw) =>
      if env.newWaterMark(pw.0, pw.1).Some? then env.newWaterMark(pw.0, pw.1)
      else ModeRaises(req, env, shape)
  }

  /** The modes with a branch in `extract_watermark`. */
  predicate KnownMode(mode: string)
  {
    mode == "img" || mode == "str" || mode == "bit"
  }

  /** Write `text` to the output file and answer `ok` with `text` as payload. */
  function Deliver(env: Env, req: ExtractRequest, before: seq<Call>, text: string, ok: string)
    : (r: Run<Option<Response<string>>>)
    ensures r.calls == before + [WriteText(req.outputPath, text)]
    ensures env.writeText(req.outputPath, text).Some? ==>
      r.result == ExtractFailure(env.writeText(req.outputPath, text).value)
    ensures env.writeText(req.outputPath, text).None? ==> r.result == Some(Response(true, ok, Some(text)))
  {
    var write := WriteText(req.outputPath, text);
    match env.writeText(req.outputPath, text)
    case Some(e) => Run(ExtractFailure(e), before + [write])
    case None => Run(Some(Response(true, ok, Some(text))), before + [write])
  }

  /** The mode dispatch of `extract_watermark`, once the collaborator `ctor` is built. */
  function ExtractBy(req: ExtractRequest, env: Env, shape: Shape, ctor: Call): (r: Run<Option<Response<string>>>)
    ensures |r.calls| >= 1 && r.calls[0] == ctor
    ensures r.result.None? <==> req.mode !in {"img", "str", "bit"}
    ensures r.result.Some? && !r.result.value.success ==>
      r.result.value.payload.None? && IsPrefix(ExtractFailed, r.result.value.message)
    ensures r.result.Some? && r.result.value.success ==> r.result.value.message == MsgExtractOk(req.mode, req.outputPath)
    ensures r.result.Some? && r.result.value.success ==> (r.result.value.payload.None? <==> req.mode == "img")
    ensures req.mode == "str" && env.extractStr(req.imgPath, shape).Raised? ==>
      && r.calls == [ctor, ExtractFrom(req.imgPath, shape, "str", None)]
      && r.result == ExtractFailure(env.extractStr(req.imgPath, shape).message)
    ensures req.mode == "bit" && env.extractBit(req.imgPath, shape).Raised? ==>
      && r.calls == [ctor, ExtractFrom(req.imgPath, shape, "bit", None)]
      && r.result == ExtractFailure(env.extractBit(req.imgPath, shape).message)
    ensures r.result.Some? && r.result.value.success && req.mode != "img" ==>
      r.calls[|r.calls| - 1] == WriteText(req.outputPath, r.result.value.payload.value)
    ensures r.result.Some? && r.result.value.success && req.mode == "str" ==>
      && env.extractStr(req.imgPath, shape).Returned?
      && r.result.value.payload == Some(env.extractStr(req.imgPath, shape).value)
    ensures r.result.Some? && r.result.value.success && req.mode == "bit" ==>
      && env.extractBit(req.imgPath, shape).Returned?
      && r.result.value.payload == Some(BitString(env.extractBit(req.imgPath, shape).value))
    ensures r.result.Some? && r.result.value.success <==> KnownMode(req.mode) && ModeRaises(req, env, shape).None?
    ensures ModeRaises(req, env, shape).Some? ==> r.result == ExtractFailure(ModeRaises(req, env, shape).value)
    ensures req.mode == "img" ==> r.calls == [ctor, ExtractFrom(req.imgPath, shape, "img", Some(req.outputPath))]
    ensures req.mode == "str" && env.extractStr(req.imgPath, shape).Returned? ==>
      r.calls == [ctor, ExtractFrom(req.imgPath, shape, "str", None),
                  WriteText(req.outputPath, env.extractStr(req.imgPath, shape).value)]
    ensures req.mode == "bit" && env.extractBit(req.imgPath, shape).Returned? ==>
      r.calls == [ctor, ExtractFrom(req.imgPath, shape, "bit", None),
                  WriteText(req.outputPath, BitString(env.extractBit(req.imgPath, shape).value))]
    ensures !KnownMode(req.mode) ==> r.calls == [ctor]
  {
    if req.mode == "img" then
      var call := ExtractFrom(req.imgPath, shape, "img", Some(req.outputPath));
      match env.extractImg(req.imgPath, shape, req.outputPath)
      case Some(e) => Run(ExtractFailure(e), [ctor, call])
      case None => Run(Some(Response(true, MsgImgOk(req.outputPath), None)), [ctor, call])
    else if req.mode == "str" then
      var call := ExtractFrom(req.imgPath, shape, "str", None);
      match env.extractStr(req.imgPath, shape)
      case Raised(e) => Run(ExtractFailure(e), [ctor, call])
      case Returned(text) => Deliver(env, req, [ctor, call], text, MsgStrOk(req.outputPath))
    else if req.mode == "bit" then
      var call := ExtractFrom(req.imgPath, shape, "bit", None);
      match env.extractBit(req.imgPath, shape)
      case Raised(e) => Run(ExtractFailure(e), [ctor, call])
      case Returned(values) => Deliver(env, req, [ctor, call], BitString(values), MsgBitOk(req.outputPath))
    else Run(None, [ctor])
  }

  /** `extract_watermark`; `result == None` is the fall-through of a mode outside
      `img`, `str` and `bit`, where the Python function returns `None`. */
  function ExtractWatermark(req: ExtractRequest, env: Env): (r: Run<Option<Response<string>>>)
    ensures ValidateExtract(req).Invalid? ==>
      r == Run(Some(Response(false, ValidateExtract(req).message, None)), [])
    ensures ValidateExtract(req).Valid? && ParseInt(req.passwordImg).None? ==>
      r == Run(Some(Response(false, ExtractFailed + IntError(req.passwordImg), None)), [])
    ensures r.calls != [] ==>
      && ValidateExtract(req).Valid?
      && ParsePasswords(req.passwordImg, req.passwordWm).Valid?
      && r.calls[0] == NewWaterMark(ParseInt(req.passwordImg).value, ParseInt(req.passwordWm).value)
    ensures r.result.None? <==>
      && ValidateExtract(req).Valid?
      && ParsePasswords(req.passwordImg, req.passwordWm).Valid?
      && env.newWaterMark(ParseInt(req.passwordImg).value, ParseInt(req.passwordWm).value).None?
      && req.mode !in {"img", "str", "bit"}
    ensures r.result.Some? && !r.result.value.success ==> r.result.value.payload.None?
    ensures r.result.Some? && !r.result.value.success && ValidateExtract(req).Valid? ==>
      IsPrefix(ExtractFailed, r.result.value.message)
    ensures r.result.Some? && r.result.value.success ==> r.result.value.message == MsgExtractOk(req.mode, req.outputPath)
    ensures r.result.Some? && r.result.value.success ==>
      && ValidateExtract(req).Valid?
      && (r.result.value.payload.None? <==> req.mode == "img")
    ensures r.result.Some? && r.result.value.success && req.mode != "img" ==>
      |r.calls| >= 1 && r.calls[|r.calls| - 1] == WriteText(req.outputPath, r.result.value.payload.value)
    ensures r.result.Some? && r.result.value.success && req.mode == "str" ==>
      && env.extractStr(req.imgPath, ValidateExtract(req).value).Returned?
      && r.result.value.payload == Some(env.extractStr(req.imgPath, ValidateExtract(req).value).value)
    ensures r.result.Some? && r.result.value.success && req.mode == "bit" ==>
      && env.extractBit(req.imgPath, ValidateExtract(req).value).Returned?
      && r.result.value.payload == Some(BitString(env.extractBit(req.imgPath, ValidateExtract(req).value).value))
    ensures r.result.Some? && r.result.value.success <==>
      && ValidateExtract(req).Valid? && KnownMode(req.mode)
      && ExtractRaises(req, env, ValidateExtract(req).value).None?
    ensures ValidateExtract(req).Valid? && ExtractRaises(req, env, ValidateExtract(req).value).Some? ==>
      r.result == ExtractFailure(ExtractRaises(req, env, ValidateExtract(req).value).value)
  {
    match ValidateExtract(req)
    case Invalid(m) => Run(Some(Response(false, m, None)), [])
    case Valid(shape) => ExtractWith(req, env, shape)
  }

  /** `extract_watermark` past its checks: the passwords, the collaborator,
      then the mode dispatch. */
  function ExtractWith(req: ExtractRequest, env: Env, shape: Shape): (r: Run<Option<Response<string>>>)
    ensures r.calls != [] ==>
      && ParsePasswords(req.passwordImg, req.passwordWm).Valid?
      && r.calls[0] == NewWaterMark(ParseInt(req.passwordImg).value, ParseInt(req.passwordWm).value)
    ensures r.result.None? ==> req.mode !in {"img", "str", "bit"}
    ensures r.result.Some? && !r.result.value.success ==>
      r.result.value.payload.None? && IsPrefix(ExtractFailed, r.result.value.message)
    ensures r.result.Some? && r.result.value.success ==> r.result.value.message == MsgExtractOk(req.mode, req.outputPath)
    ensures r.result.Some? && r.result.value.success <==> KnownMode(req.mode) && ExtractRaises(req, env, shape).None?
    ensures r.result.None? <==> !KnownMode(req.mode) && ExtractRaises(req, env, shape).None?
    ensures ExtractRaises(req, env, shape).Some? ==> r.result == ExtractFailure(ExtractRaises(req, env, shape).value)
    ensures ParsePasswords(req.passwordImg, req.passwordWm).Invalid? ==> r.calls == []
  {
    match ParsePasswords(req.passwordImg, req.passwordWm)
    case Invalid(e) => Run(ExtractFailure(e), [])
    case Valid(pw) => ExtractAs(req, env, shape, pw)
  }

  /** `extract_watermark` once the passwords `pw` are parsed: `WaterMark(pw)`,
      then the mode dispatch. */
  function ExtractAs(req: ExtractRequest, env: Env, shape: Shape, pw: (int, int)): (r: Run<Option<Response<string>>>)
    ensures |r.calls| >= 1 && r.calls[0] == NewWaterMark(pw.0, pw.1)
    ensures r.result.None? ==> req.mode !in {"img", "str", "bit"}
    ensures r.result.Some? && !r.result.value.success ==>
      r.result.value.payload.None? && IsPrefix(ExtractFailed, r.result.value.message)
    ensures r.result.Some? && r.result.value.success ==> r.result.value.message == MsgExtractOk(req.mode, req.outputPath)
    ensures env.newWaterMark(pw.0, pw.1).Some? ==>
      r == Run(ExtractFailure(env.newWaterMark(pw.0, pw.1).value), [NewWaterMark(pw.0, pw.1)])
    ensures env.newWaterMark(pw.0, pw.1).None? ==>
      && (r.result.Some? && r.result.value.success <==> KnownMode(req.mode) && ModeRaises(req, env, shape).None?)
      && (ModeRaises(req, env, shape).Some? ==> r.result == ExtractFailure(ModeRaises(req, env, shape).value))
  {
    var ctor := NewWaterMark(pw.0, pw.1);
    match env.newWaterMark(pw.0, pw.1)
    case Some(e) => Run(ExtractFailure(e), [ctor])
    case None => ExtractBy(req, env, shape, ctor)
  }

  // ------------------------------------------------------------- properties

  /** An example: the two tokens the bit string is made of parse to 1 and 0. */
  lemma ParsesOne()
    ensures ParseInt("1") == Some(1) && ParseInt("0") == Some(0)
  {
    ParseDigit("1");
    ParseDigit("0");
  }

  /** The bit string has one token per extracted value: `"1"` exactly when the value is at least 0.5. */
  lemma BitStringTokens(values: seq<real>)
    requires |values| >= 1
    ensures Split(BitString(values), ',') == Thresholded(values)
  {
    var ts := Thresholded(values);
    forall i | 0 <= i < |ts| ensures ',' !in ts[i] {
      assert ts[i] == "1" || ts[i] == "0";
    }
    SplitJoin(ts, ',');
  }

  /** Feeding a non-empty extracted bit string back to the embed bit parser
      yields exactly the thresholded booleans. */
  lemma BitRoundTrip(values: seq<real>)
    requires |values| >= 1
    ensures var r := ParseBits(Some(BitString(values)));
      && r.Some? && |r.value| == |values|
      && forall i :: 0 <= i < |values| ==> r.value[i] == (values[i] >= 0.5)
  {
    BitStringTokens(values);
    BitTokensParse(Thresholded(values));
  }

  /** Tokens that are all `"1"` or `"0"` parse to `true` exactly at the `"1"`s. */
  lemma BitTokensParse(ts: seq<string>)
    requires forall i :: 0 <= i < |ts| ==> ts[i] == "1" || ts[i] == "0"
    ensures var r := BoolsOf(ts);
      && r.Some? && |r.value| == |ts|
      && forall i :: 0 <= i < |ts| ==> r.value[i] == (ts[i] == "1")
  {
    ParsesOne();
  }

  /** An empty extraction gives the empty string, which the embed parser rejects. */
  lemma EmptyBitStringRejected()
    ensures BitString([]) == "" && ParseBits(Some(BitString([]))) == None
  {
  }

  /** Any integer token is a bit: `"1,2,0"` parses, and `2` counts as true. */
  lemma AnyIntegerIsABit()
    ensures var r := ParseBits(Some("1,2,0"));
      r.Some? && |r.value| == 3 && r.value[0] && r.value[1] && !r.value[2]
  {
    SplitOneTwoZero();
    DigitTokensParse(["1", "2", "0"]);
  }

  /** The tokens of `"1,2,0"`. */
  lemma SplitOneTwoZero()
    ensures Split("1,2,0", ',') == ["1", "2", "0"]
  {
    SplitNoSep("0", ',');
    SplitCons("2", "0", ',');
    assert "2" + [','] + "0" == "2,0";
    SplitCons("1", "2,0", ',');
    assert "1" + [','] + "2,0" == "1,2,0";
  }

  /** Single-digit tokens all parse, each to true exactly when it is not `"0"`. */
  lemma DigitTokensParse(ts: seq<string>)
    requires forall i :: 0 <= i < |ts| ==> |ts[i]| == 1 && IsDigit(ts[i][0])
    ensures var r := BoolsOf(ts);
      && r.Some? && |r.value| == |ts|
      && forall i :: 0 <= i < |ts| ==> r.value[i] == (ts[i][0] != '0')
  {
    forall i | 0 <= i < |ts|
      ensures ParseInt(ts[i]) == Some(DigitValue(ts[i][0]) as int)
    {
      ParseDigit(ts[i]);
    }
  }

  /** An example of `ParseShape`'s token-count rule: a single token is not an image shape. */
  lemma ImageShapeNeedsComma()
    ensures ParseShape("img", "128") == None
  {
    SplitNoSep("128", ',');
  }

  /** An example of the same rule: three tokens are refused too. */
  lemma ImageShapeThreeTokens()
    ensures ParseShape("img", "1,2,3") == None
  {
    SplitNoSep("3", ',');
    SplitCons("2", "3", ',');
    assert "2" + [','] + "3" == "2,3";
    SplitCons("1", "2,3", ',');
    assert "1" + [','] + "2,3" == "1,2,3";
  }

  /** Two integer tokens make an image shape, whatever their sign or size. */
  lemma ImageShapeOfPair(s: string, a: string, b: string)
    requires Split(s, ',') == [a, b]
    requires ParseInt(a).Some? && ParseInt(b).Some?
    ensures ParseShape("img", s) == Some(WidthHeight(ParseInt(a).value, ParseInt(b).value))
  {
  }

  lemma NoCommaInInt(n: int)
    ensures ',' !in IntToString(n)
  {
    var d := NatToString(if n < 0 then -n else n);
    assert forall i :: 0 <= i < |d| ==> d[i] != ',';
  }

  /** Every pair of integers, negative and zero included, is an accepted image shape. */
  lemma ImageShapeUnchecked(w: int, h: int)
    ensures ParseShape("img", IntToString(w) + "," + IntToString(h)) == Some(WidthHeight(w, h))
  {
    var a, b := IntToString(w), IntToString(h);
    IntRoundTrip(w);
    IntRoundTrip(h);
    NoCommaInInt(w);
    NoCommaInInt(h);
    SplitNoSep(b, ',');
    SplitCons(a, b, ',');
    ImageShapeOfPair(a + [','] + b, a, b);
  }

  /** Every integer, negative and zero included, is an accepted text or bit length. */
  lemma LengthUnchecked(mode: string, n: int)
    requires mode != "img"
    ensures ParseShape(mode, IntToString(n)) == Some(Length(n))
  {
    IntRoundTrip(n);
  }
}
