/**
 * `background.py`: the `BackgroundManager` that keeps a window-filling
 * background picture. Pictures are modelled by their dimensions (and whether
 * their pixels decode); the window size, `Image.open`, `os.path.exists` and the
 * file dialog's answer are inputs. Arithmetic is exact: `/` is real division
 * and `int()` of a non-negative real is its floor.
 */
module Background {
  import opened PyText
  import opened Config

  /** A pair of integer dimensions, as `winfo_width()`/`winfo_height()` or a
      `<Configure>` event report them. */
  datatype Size = Size(width: int, height: int)

  /** The dimensions of an opened picture: PIL never opens a picture with an
      empty side. */
  type ImageSize = s: Size | s.width >= 1 && s.height >= 1 witness Size(1, 1)

  /** A PIL `crop` box: left, top, right, bottom. */
  datatype Box = Box(left: int, top: int, right: int, bottom: int)

  /** What a `CTkImage` is made of: the size the picture was resized to, the
      box cut from it, and the display size. */
  datatype Render = Render(resized: Size, crop: Box, size: Size)

  /** `Image.open` is lazy: it reads the header (so the size is known) and the
      pixels are decoded by the first `resize`, which raises `decodeError` when
      there is one. */
  datatype ImageFile = ImageFile(size: ImageSize, decodeError: Option<string>)

  /** The outcome of `Image.open(path)`: a picture, or the message of the
      exception it raised. */
  datatype Opened = Picture(image: ImageFile) | OpenFailed(message: string)

  /** The fixed preview box of the settings page. */
  const PreviewWidth := 400
  const PreviewHeight := 220

  const DebounceMillis := 150
  const MsgNoPreview := "暂无背景图片"
  const MsgPreviewFailed := "加载预览失败"
  const LoadFailed := "加载背景图片失败: "
  const NoPathText := "无"

  /** The picture scaled by `k`, each side truncated by `int()`. */
  function Scaled(img: ImageSize, k: real): Size
    requires k > 0.0
  {
    Size((img.width as real * k).Floor, (img.height as real * k).Floor)
  }

  /** A box exactly `win` in size, centred in `resized` (Python `//` on a
      non-negative difference). */
  function CentredBox(resized: Size, win: Size): Box
  {
    var left := (resized.width - win.width) / 2;
    var top := (resized.height - win.height) / 2;
    Box(left, top, left + win.width, top + win.height)
  }

  /** The picture covers the window: it is at least as large on both axes
      and fits one of them exactly; the crop box is exactly the window's size,
      lies inside the resized picture and is centred in it (the two margins of
      an axis differ by at most one pixel, the extra pixel on the right or at
      the bottom). */
  predicate Covers(r: Render, win: Size)
  {
    && r.size == win
    && r.resized.width >= win.width && r.resized.height >= win.height
    && (r.resized.width == win.width || r.resized.height == win.height)
    && r.crop.right - r.crop.left == win.width
    && r.crop.bottom - r.crop.top == win.height
    && 0 <= r.crop.left && 0 <= r.crop.top
    && r.crop.right <= r.resized.width && r.crop.bottom <= r.resized.height
    && 0 <= (r.resized.width - r.crop.right) - r.crop.left <= 1
    && 0 <= (r.resized.height - r.crop.bottom) - r.crop.top <= 1
  }

  /** Scaling by `win.width / img.width` fits the width exactly and, when that
      ratio is the larger one, covers the height. */
  lemma {:induction false} ScaleByWidth(win: Size, img: ImageSize)
    requires win.width >= 1 && win.height >= 1
    requires win.width as real / img.width as real >= win.height as real / img.height as real
    ensures Scaled(img, win.width as real / img.width as real).width == win.width
    ensures Scaled(img, win.width as real / img.width as real).height >= win.height
  {
    var iw, ih := img.width as real, img.height as real;
    var sw, sh := win.width as real / iw, win.height as real / ih;
    assert iw * sw == win.width as real;
    assert ih * sh == win.height as real;
    assert ih * sw >= ih * sh;
  }

  /** Scaling by `win.height / img.height` fits the height exactly and, when
      that ratio is the larger one, covers the width. */
  lemma {:induction false} ScaleByHeight(win: Size, img: ImageSize)
    requires win.width >= 1 && win.height >= 1
    requires win.height as real / img.height as real >= win.width as real / img.width as real
    ensures Scaled(img, win.height as real / img.height as real).height == win.height
    ensures Scaled(img, win.height as real / img.height as real).width >= win.width
  {
    var iw, ih := img.width as real, img.height as real;
    var sw, sh := win.width as real / iw, win.height as real / ih;
    assert ih * sh == win.height as real;
    assert iw * sw == win.width as real;
    assert iw * sh >= iw * sw;
  }

  /** Scaling by the larger axis ratio fits one side exactly and covers the
      other. */
  lemma ScaleCovers(win: Size, img: ImageSize)
    requires win.width >= 1 && win.height >= 1
    ensures var sw := win.width as real / img.width as real;
      var sh := win.height as real / img.height as real;
      var r := Scaled(img, if sw >= sh then sw else sh);
      && r.width >= win.width && r.height >= win.height
      && (r.width == win.width || r.height == win.height)
  {
    var sw := win.width as real / img.width as real;
    var sh := win.height as real / img.height as real;
    if sw >= sh {
      ScaleByWidth(win, img);
    } else {
      ScaleByHeight(win, img);
    }
  }

  /** A box centred in a picture at least as large as the window has the
      window's size, lies inside it and is centred. */
  lemma CentredBoxFits(resized: Size, win: Size)
    requires resized.width >= win.width && resized.height >= win.height
    ensures var b := CentredBox(resized, win);
      && b.right - b.left == win.width && b.bottom - b.top == win.height
      && 0 <= b.left && 0 <= b.top
      && b.right <= resized.width && b.bottom <= resized.height
      && 0 <= (resized.width - b.right) - b.left <= 1
      && 0 <= (resized.height - b.bottom) - b.top <= 1
  {
  }

  /** The cover-fit step of `update_background`: scale by the larger of the
      two axis ratios, truncate, then cut a centred window-sized box. */
  function CoverFit(win: Size, img: ImageSize): (r: Render)
    requires win.width > 1 && win.height > 1
    ensures Covers(r, win)
  {
    var sw := win.width as real / img.width as real;
    var sh := win.height as real / img.height as real;
    var scale := if sw >= sh then sw else sh;
    ScaleCovers(win, img);
    var resized := Scaled(img, scale);
    CentredBoxFits(resized, win);
    Render(resized, CentredBox(resized, win), win)
  }

  /** The geometry of `update_preview_image`: compare the picture's aspect
      ratio with 400/220, fix the matching side at the box's size and derive
      the other from the ratio, then cut a centred 400x220 box. */
  function PreviewFit(img: ImageSize): Render
  {
    var box := Size(PreviewWidth, PreviewHeight);
    var imgRatio := img.width as real / img.height as real;
    var previewRatio := PreviewWidth as real / PreviewHeight as real;
    var resized :=
      if imgRatio > previewRatio then Size((PreviewHeight as real * imgRatio).Floor, PreviewHeight)
      else Size(PreviewWidth, (PreviewWidth as real / imgRatio).Floor);
    Render(resized, CentredBox(resized, box), box)
  }

  /** Comparing aspect ratios is comparing the two axis scales the other way
      round. */
  lemma RatioTest(iw: real, ih: real, w: real, h: real)
    requires iw > 0.0 && ih > 0.0 && w > 0.0 && h > 0.0
    ensures (iw / ih > w / h) == (h / ih > w / iw)
  {
    var k := ih * h * iw;
    assert k > 0.0;
    assert (iw / ih) * k == iw * iw * h;
    assert (w / h) * k == w * ih * iw;
    assert (h / ih) * k == h * h * iw;
    assert (w / iw) * k == w * ih * h;
    assert (iw / ih > w / h) == (iw * h > w * ih);
    assert (h / ih > w / iw) == (h * iw > w * ih);
  }

  /** Deriving a side from the aspect ratio is scaling it by the other
      axis's ratio. */
  lemma RatioSides(iw: real, ih: real, w: real, h: real)
    requires iw > 0.0 && ih > 0.0
    ensures h * (iw / ih) == iw * (h / ih)
    ensures w / (iw / ih) == ih * (w / iw)
  {
  }

  /** The preview's ratio test picks the same axis as the window's cover fit,
      so the preview is the cover fit of a 400x220 window: it covers the box
      and its crop is exactly 400x220. */
  lemma PreviewIsCoverFit(img: ImageSize)
    ensures PreviewFit(img) == CoverFit(Size(PreviewWidth, PreviewHeight), img)
    ensures Covers(PreviewFit(img), Size(PreviewWidth, PreviewHeight))
  {
    var iw, ih := img.width as real, img.height as real;
    var w, h := PreviewWidth as real, PreviewHeight as real;
    RatioTest(iw, ih, w, h);
    RatioSides(iw, ih, w, h);
    assert ih * (h / ih) == h;
    assert iw * (w / iw) == w;
  }

  /** A `<Configure>` event: whether its widget is the root window, and the
      size it reports. */
  datatype ResizeEvent = ResizeEvent(fromRoot: bool, size: Size)

  /** The debounce state of `on_window_resize`: the last size seen, the timer
      id kept in `resize_after_id`, the timers Tk still has scheduled, and the
      id Tk hands out next. */
  datatype Debounce = Debounce(lastSize: Size, afterId: Option<nat>, pending: set<nat>, nextId: nat)

  const InitialDebounce := Debounce(Size(0, 0), None, {}, 0)

  /** Every scheduled timer is the one `resize_after_id` names, and every id
      handed out so far is below `nextId`. */
  predicate DebounceOk(d: Debounce)
  {
    && (forall t :: t in d.pending ==> d.afterId == Some(t))
    && (d.afterId.Some? ==> d.afterId.value < d.nextId)
  }

  /** `on_window_resize`: events of other widgets and repeated sizes change
      nothing; otherwise the size is recorded, the recorded timer is cancelled
      and a new one is scheduled. */
  function OnResize(d: Debounce, ev: ResizeEvent): (r: Debounce)
    ensures !ev.fromRoot || ev.size == d.lastSize ==> r == d
    ensures r.lastSize == if ev.fromRoot then ev.size else d.lastSize
    ensures DebounceOk(d) ==> DebounceOk(r)
    ensures DebounceOk(d) && ev.fromRoot && ev.size != d.lastSize ==>
      r.afterId == Some(d.nextId) && r.pending == {d.nextId} && d.nextId !in d.pending
  {
    if !ev.fromRoot || ev.size == d.lastSize then d
    else
      var cancelled := if d.afterId.Some? then d.pending - {d.afterId.value} else d.pending;
      Debounce(ev.size, Some(d.nextId), cancelled + {d.nextId}, d.nextId + 1)
  }

  /** A scheduled timer fires and leaves the schedule; `resize_after_id`
      keeps naming it. */
  function Fire(d: Debounce, id: nat): (r: Debounce)
    requires id in d.pending
    ensures DebounceOk(d) ==> DebounceOk(r) && r.pending == {}
    ensures r.lastSize == d.lastSize && r.afterId == d.afterId
  {
    d.(pending := d.pending - {id})
  }

  /** A well-formed debounce state has at most one timer scheduled. */
  lemma AtMostOnePending(d: Debounce)
    requires DebounceOk(d)
    ensures |d.pending| <= 1
  {
    if d.afterId.Some? {
      var a := d.afterId.value;
      if a in d.pending {
        assert d.pending == {a};
      } else {
        assert d.pending == {};
      }
    } else {
      assert d.pending == {};
    }
  }

  /** The state after a run of `<Configure>` events. */
  function Replay(d: Debounce, events: seq<ResizeEvent>): Debounce
    decreases |events|
  {
    if events == [] then d else Replay(OnResize(d, events[0]), events[1..])
  }

  /** The size of the last event that came from the root window, if any. */
  function LastRootSize(events: seq<ResizeEvent>, otherwise: Size): Size
  {
    if events == [] then otherwise
    else LastRootSize(events[1..], if events[0].fromRoot then events[0].size else otherwise)
  }

  /** However the events arrive, at most one timer stays scheduled and the
      recorded size is the last size the root window reported. */
  lemma {:induction false} ReplayKeepsOneTimer(d: Debounce, events: seq<ResizeEvent>)
    requires DebounceOk(d)
    ensures DebounceOk(Replay(d, events))
    ensures |Replay(d, events).pending| <= 1
    ensures Replay(d, events).lastSize == LastRootSize(events, d.lastSize)
    decreases |events|
  {
    if events != [] {
      ReplayKeepsOneTimer(OnResize(d, events[0]), events[1..]);
    }
    AtMostOnePending(Replay(d, events));
  }

  /** A burst that ends with a root event of a new size leaves exactly one
      timer scheduled, the one just created. */
  lemma {:induction false} BurstLeavesOneTimer(d: Debounce, events: seq<ResizeEvent>, last: ResizeEvent)
    requires DebounceOk(d)
    requires last.fromRoot && last.size != Replay(d, events).lastSize
    ensures var r := Replay(d, events + [last]);
      && r.afterId.Some? && r.pending == {r.afterId.value}
  {
    ReplayKeepsOneTimer(d, events);
    ReplaySnoc(d, events, last);
  }

  lemma {:induction false} ReplaySnoc(d: Debounce, events: seq<ResizeEvent>, last: ResizeEvent)
    ensures Replay(d, events + [last]) == OnResize(Replay(d, events), last)
    decreases |events|
  {
    if events == [] {
      assert events + [last] == [last];
    } else {
      assert (events + [last])[1..] == events[1..] + [last];
      ReplaySnoc(OnResize(d, events[0]), events[1..], last);
    }
  }

  /** What the settings page's preview shows: the rendered picture, if any,
      and the label's text (empty while the picture is shown). */
  datatype Preview = Preview(image: Option<Render>, text: string)

  /** The outcome of `update_preview_image` for a configuration, where
      `pathExists` is `os.path.exists` (`None` when it raises) and `openResult`
      is what `Image.open` gives for the configured path. The picture is shown
      exactly when the path exists and decodes; the placeholder exactly when
      there is no path or no such file; the failure text exactly when something
      raised. */
  function PreviewOf(config: Dict, pathExists: Json -> Option<bool>, openResult: Opened): (p: Preview)
    ensures var bgPath := if BackgroundKey in config then config[BackgroundKey] else JNull;
      var present := Truthy(bgPath) && pathExists(bgPath) == Some(true);
      && (p.text == "" <==> present && openResult.Picture? && openResult.image.decodeError.None?)
      && (p.text == MsgNoPreview <==> (Truthy(bgPath) ==> pathExists(bgPath) == Some(false)))
      && (p.text == MsgPreviewFailed <==>
            Truthy(bgPath) && (pathExists(bgPath).None? ||
              (present && (openResult.OpenFailed? || openResult.image.decodeError.Some?))))
      && (p.image.Some? <==> p.text == "")
      && (p.text == "" ==> p.image == Some(PreviewFit(openResult.image.size))
                           && Covers(p.image.value, Size(PreviewWidth, PreviewHeight)))
  {
    var bgPath := if BackgroundKey in config then config[BackgroundKey] else JNull;
    if !Truthy(bgPath) then Preview(None, MsgNoPreview)
    else match pathExists(bgPath)
      case None => Preview(None, MsgPreviewFailed)
      case Some(found) =>
        if !found then Preview(None, MsgNoPreview)
        else if openResult.OpenFailed? || openResult.image.decodeError.Some? then Preview(None, MsgPreviewFailed)
        else
          PreviewIsCoverFit(openResult.image.size);
          Preview(Some(PreviewFit(openResult.image.size)), "")
  }

  /** What `update_background` raises for a loaded picture and a window:
      nothing while the window is not laid out, the decoding error of a lazy
      picture, or `AttributeError` when `create_background` never made the
      label. */
  function BackgroundError(img: ImageFile, win: Size, hasLabel: bool): Option<string>
  {
    if win.width <= 1 || win.height <= 1 then None
    else if img.decodeError.Some? then img.decodeError
    else if !hasLabel then Some(NoLabelError)
    else None
  }

  const NoLabelError := "'NoneType' object has no attribute 'configure'"

  /** `BackgroundManager`. The settings page sets `hasPreviewLabel` and
      `hasPathVar` (with `pathText`) directly, as it sets `preview_label` and
      `bg_path_var`. */
  class BackgroundManager {
    /** The shared configuration dict and the snapshots `save_config` wrote. */
    var config: Dict
    var saves: seq<Dict>
    var bgImagePath: Option<Json>
    var bgImageOriginal: Option<ImageFile>
    var bgCtkImage: Option<Render>
    /** Whether `create_background` made the label, and what it shows. */
    var hasBgLabel: bool
    var bgShown: Option<Render>
    var lastSize: Size
    var resizeAfterId: Option<nat>
    /** Tk's side of `after`: the timers still scheduled and the next id. */
    var pending: set<nat>
    var nextTimer: nat
    var hasPreviewLabel: bool
    var previewImage: Option<Render>
    var previewText: string
    var hasPathVar: bool
    var pathText: string
    /** The texts of the error dialogs shown so far. */
    var dialogs: seq<string>

    function Timers(): Debounce
      reads this
    {
      Debounce(lastSize, resizeAfterId, pending, nextTimer)
    }

    /** `__init__`: the saved path is kept only when truthy. */
    constructor (config: Dict)
      ensures this.config == config && saves == []
      ensures bgImagePath == if BackgroundKey in config && Truthy(config[BackgroundKey]) then Some(config[BackgroundKey]) else None
      ensures bgImageOriginal == None && bgCtkImage == None
      ensures !hasBgLabel && !hasPreviewLabel && !hasPathVar
      ensures Timers() == InitialDebounce && DebounceOk(Timers())
      ensures dialogs == []
    {
      this.config := config;
      saves := [];
      bgImagePath := if BackgroundKey in config && Truthy(config[BackgroundKey]) then Some(config[BackgroundKey]) else None;
      bgImageOriginal := None;
      bgCtkImage := None;
      hasBgLabel := false;
      bgShown := None;
      lastSize := Size(0, 0);
      resizeAfterId := None;
      pending := {};
      nextTimer := 0;
      hasPreviewLabel := false;
      previewImage := None;
      previewText := "";
      hasPathVar := false;
      pathText := "";
      dialogs := [];
    }

    /** `update_background`: the picture is fitted to the window; the
      result is the exception it raises. */
    method UpdateBackground(win: Size) returns (raised: Option<string>)
      modifies this`bgCtkImage, this`bgShown
      ensures bgImageOriginal.None? ==> raised.None? && unchanged(this)
      ensures bgImageOriginal.Some? ==> raised == BackgroundError(bgImageOriginal.value, win, hasBgLabel)
      ensures bgImageOriginal.Some? && win.width > 1 && win.height > 1 && bgImageOriginal.value.decodeError.None? ==>
        && bgCtkImage == Some(CoverFit(win, bgImageOriginal.value.size))
        && bgShown == if hasBgLabel then bgCtkImage else old(bgShown)
      ensures bgCtkImage.Some? && bgCtkImage != old(bgCtkImage) ==> Covers(bgCtkImage.value, win)
      ensures raised.Some? ==> bgShown == old(bgShown)
      ensures !(bgImageOriginal.Some? && win.width > 1 && win.height > 1 && bgImageOriginal.value.decodeError.None?) ==>
        unchanged(this)
    {
      if bgImageOriginal.None? {
        return None;
      }
      if win.width <= 1 || win.height <= 1 {
        return None;
      }
      var img := bgImageOriginal.value;
      if img.decodeError.Some? {
        return img.decodeError;
      }
      bgCtkImage := Some(CoverFit(win, img.size));
      if !hasBgLabel {
        return Some(NoLabelError);
      }
      bgShown := bgCtkImage;
      return None;
    }

    /** `on_window_resize`, with Tk's `after_cancel` and `after` folded in. */
    method OnWindowResize(ev: ResizeEvent)
      modifies this`lastSize, this`resizeAfterId, this`pending, this`nextTimer
      ensures Timers() == OnResize(old(Timers()), ev)
      ensures old(DebounceOk(Timers())) ==> DebounceOk(Timers()) && |pending| <= 1
    {
      if ev.fromRoot && ev.size != lastSize {
        lastSize := ev.size;
        if resizeAfterId.Some? {
          pending := pending - {resizeAfterId.value};
        }
        resizeAfterId := Some(nextTimer);
        pending := pending + {nextTimer};
        nextTimer := nextTimer + 1;
      }
      if old(DebounceOk(Timers())) {
        AtMostOnePending(Timers());
      }
    }

    /** Tk runs the scheduled `update_background` of timer `id`; what it
      raises is reported by Tk and goes no further. */
    method FireTimer(id: nat, win: Size) returns (raised: Option<string>)
      requires id in pending
      modifies this`pending, this`bgCtkImage, this`bgShown
      ensures Timers() == Fire(old(Timers()), id)
      ensures bgImageOriginal.Some? ==> raised == BackgroundError(bgImageOriginal.value, win, hasBgLabel)
      ensures bgImageOriginal.Some? && win.width > 1 && win.height > 1 && bgImageOriginal.value.decodeError.None? ==>
        && bgCtkImage == Some(CoverFit(win, bgImageOriginal.value.size))
        && bgShown == if hasBgLabel then bgCtkImage else old(bgShown)
      ensures !(bgImageOriginal.Some? && win.width > 1 && win.height > 1 && bgImageOriginal.value.decodeError.None?) ==>
        bgCtkImage == old(bgCtkImage) && bgShown == old(bgShown)
      ensures bgCtkImage.Some? && bgCtkImage != old(bgCtkImage) ==> Covers(bgCtkImage.value, win)
    {
      pending := pending - {id};
      raised := UpdateBackground(win);
    }

    /** `load_background_image(path)`, where `openResult` is what `Image.open(path)`
      gives. Success records the path in the manager and in the config and
      saves; a failure shows one error dialog and leaves the config alone. */
    method LoadBackgroundImage(path: Json, openResult: Opened, win: Size) returns (ok: bool)
      modifies this`bgImagePath, this`bgImageOriginal, this`bgCtkImage, this`bgShown, this`config, this`saves, this`dialogs
      ensures ok == (openResult.Picture? && BackgroundError(openResult.image, win, old(hasBgLabel)).None?)
      ensures ok ==> && bgImagePath == Some(path) && bgImageOriginal == Some(openResult.image)
                     && config == old(config)[BackgroundKey := path] && saves == old(saves) + [config]
                     && dialogs == old(dialogs)
      ensures !ok ==> config == old(config) && saves == old(saves)
      ensures !ok ==> |dialogs| == |old(dialogs)| + 1 && IsPrefix(LoadFailed, dialogs[|dialogs| - 1])
      ensures openResult.OpenFailed? ==>
        (dialogs == old(dialogs) + [LoadFailed + openResult.message] &&
         unchanged(this`bgImagePath, this`bgImageOriginal, this`bgCtkImage, this`bgShown))
      ensures openResult.Picture? ==> bgImagePath == Some(path) && bgImageOriginal == Some(openResult.image)
      ensures openResult.Picture? && win.width > 1 && win.height > 1 && openResult.image.decodeError.None? ==>
        bgCtkImage == Some(CoverFit(win, openResult.image.size))
        && bgShown == if old(hasBgLabel) then bgCtkImage else old(bgShown)
      ensures openResult.Picture? && !(win.width > 1 && win.height > 1 && openResult.image.decodeError.None?) ==>
        bgCtkImage == old(bgCtkImage) && bgShown == old(bgShown)
    {
      if openResult.OpenFailed? {
        dialogs := dialogs + [LoadFailed + openResult.message];
        return false;
      }
      bgImageOriginal := Some(openResult.image);
      bgImagePath := Some(path);
      var raised := UpdateBackground(win);
      if raised.Some? {
        dialogs := dialogs + [LoadFailed + raised.value];
        return false;
      }
      config := config[BackgroundKey := path];
      saves := saves + [config];
      return true;
    }

    /** `clear_background_image`: forget the picture, empty the config entry
      and save; the settings page, when it is open, shows that there is no
      picture. Every field it writes gets a value that does not depend on the old
      state, and an already empty entry stays as it is, so a second call
      changes nothing but the save count. */
    method ClearBackgroundImage()
      modifies this`bgImagePath, this`bgImageOriginal, this`bgCtkImage, this`bgShown, this`config, this`saves,
              this`pathText, this`previewImage, this`previewText
      ensures bgImagePath == None && bgImageOriginal == None && bgCtkImage == None
      ensures config == old(config)[BackgroundKey := JStr("")] && saves == old(saves) + [config]
      ensures old(BackgroundKey in config && config[BackgroundKey] == JStr("")) ==> config == old(config)
      ensures bgShown == if hasBgLabel then None else old(bgShown)
      ensures pathText == if hasPathVar then NoPathText else old(pathText)
      ensures previewImage == if hasPreviewLabel then None else old(previewImage)
      ensures previewText == if hasPreviewLabel then MsgNoPreview else old(previewText)
    {
      bgImagePath := None;
      bgImageOriginal := None;
      bgCtkImage := None;
      if hasBgLabel {
        bgShown := None;
      }
      config := config[BackgroundKey := JStr("")];
      saves := saves + [config];
      if hasPathVar {
        pathText := NoPathText;
      }
      if hasPreviewLabel {
        previewImage := None;
        previewText := MsgNoPreview;
      }
    }

    /** `update_preview_image`, where `openResult` is what `Image.open` gives for
      the configured path: nothing propagates, and the preview becomes
      `PreviewOf` the configuration. */
    method UpdatePreviewImage(pathExists: Json -> Option<bool>, openResult: Opened)
      modifies this`previewImage, this`previewText
      ensures !hasPreviewLabel ==> unchanged(this)
      ensures hasPreviewLabel ==> Preview(previewImage, previewText) == PreviewOf(config, pathExists, openResult)
    {
      if !hasPreviewLabel {
        return;
      }
      var bgPath := if BackgroundKey in config then config[BackgroundKey] else JNull;
      var failed := false;
      var present := false;
      if Truthy(bgPath) {
        var found := pathExists(bgPath);
        if found.None? {
          failed := true;
        } else {
          present := found.value;
        }
      }
      if !failed && present {
        if openResult.OpenFailed? || openResult.image.decodeError.Some? {
          failed := true;
        } else {
          PreviewIsCoverFit(openResult.image.size);
          previewImage := Some(PreviewFit(openResult.image.size));
          previewText := "";
          return;
        }
      }
      previewImage := None;
      previewText := if failed then MsgPreviewFailed else MsgNoPreview;
    }

    /** `choose_background_image`, where `chosen` is the dialog's answer (`""`
      when cancelled), `openResult` what `Image.open(chosen)` gives while
      loading, and `previewOpen` what `Image.open` gives when the preview
      reopens the configured path. The path display and the preview are
      refreshed even when loading failed; the preview then shows the picture
      the configuration still names. */
    method ChooseBackgroundImage(chosen: string, openResult: Opened, previewOpen: Opened,
                                 pathExists: Json -> Option<bool>, win: Size)
      modifies this`bgImagePath, this`bgImageOriginal, this`bgCtkImage, this`bgShown, this`config, this`saves,
              this`dialogs, this`pathText, this`previewImage, this`previewText
      ensures chosen == "" ==> unchanged(this)
      ensures chosen != "" && hasPathVar ==> pathText == chosen
      ensures chosen != "" && openResult.Picture? && BackgroundError(openResult.image, win, hasBgLabel).None? ==>
        config == old(config)[BackgroundKey := JStr(chosen)] && saves == old(saves) + [config]
      ensures chosen != "" && !(openResult.Picture? && BackgroundError(openResult.image, win, hasBgLabel).None?) ==>
        && config == old(config) && saves == old(saves)
        && |dialogs| == |old(dialogs)| + 1 && IsPrefix(LoadFailed, dialogs[|dialogs| - 1])
      ensures chosen != "" && hasPreviewLabel ==>
        Preview(previewImage, previewText) == PreviewOf(config, pathExists, previewOpen)
      ensures chosen != "" && !hasPreviewLabel ==>
        previewImage == old(previewImage) && previewText == old(previewText)
      ensures chosen != "" && !(openResult.Picture? && BackgroundError(openResult.image, win, hasBgLabel).None?)
              && hasPreviewLabel ==>
        Preview(previewImage, previewText) == PreviewOf(old(config), pathExists, previewOpen)
      ensures chosen != "" && openResult.Picture? && BackgroundError(openResult.image, win, hasBgLabel).None?
              && hasPreviewLabel ==>
        (previewText == "" <==>
           pathExists(JStr(chosen)) == Some(true) && previewOpen.Picture? && previewOpen.image.decodeError.None?)
    {
      if chosen == "" {
        return;
      }
      var ok := LoadBackgroundImage(JStr(chosen), openResult, win);
      if hasPathVar {
        pathText := chosen;
      }
      if hasPreviewLabel {
        UpdatePreviewImage(pathExists, previewOpen);
      }
    }

    /** `create_background`: make the label, then load the saved picture if
      there is one (`openResult` is what `Image.open` gives for it). */
    method CreateBackground(openResult: Opened, win: Size)
      modifies this`hasBgLabel, this`bgImagePath, this`bgImageOriginal, this`bgCtkImage, this`bgShown, this`config,
              this`saves, this`dialogs
      ensures hasBgLabel
      ensures old(bgImagePath).None? ==> config == old(config) && bgShown == None && dialogs == old(dialogs)
      ensures old(bgImagePath).Some? ==>
        var ok := openResult.Picture? && BackgroundError(openResult.image, win, true).None?;
        && (ok ==> config == old(config)[BackgroundKey := old(bgImagePath).value])
        && (!ok ==> config == old(config) && |dialogs| == |old(dialogs)| + 1
                    && IsPrefix(LoadFailed, dialogs[|dialogs| - 1]))
      ensures old(bgImagePath).Some? && openResult.Picture? ==>
        bgImagePath == old(bgImagePath) && bgImageOriginal == Some(openResult.image)
      ensures old(bgImagePath).None? || openResult.OpenFailed? ==>
        bgImagePath == old(bgImagePath) && bgImageOriginal == old(bgImageOriginal)
      ensures old(bgImagePath).Some? && openResult.Picture? && win.width > 1 && win.height > 1
              && openResult.image.decodeError.None? ==>
        bgShown == Some(CoverFit(win, openResult.image.size))
      ensures !(old(bgImagePath).Some? && openResult.Picture? && win.width > 1 && win.height > 1
                && openResult.image.decodeError.None?) ==>
        bgShown == None && bgCtkImage == old(bgCtkImage)
    {
      hasBgLabel := true;
      bgShown := None;
      if bgImagePath.Some? {
        var ok := LoadBackgroundImage(bgImagePath.value, openResult, win);
      }
    }
  }
}
