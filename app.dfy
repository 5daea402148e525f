/**
 * `app.py`: the main window `BlindWatermarkGUI`. It loads the configuration,
 * makes the background manager and the sidebar, registers the pages and
 * switches between them. A page is modelled by whether it is shown; the
 * widgets inside the pages are left out.
 */
module App {
  import opened PyText
  import opened Config
  import opened Background
  import opened Components

  /** The names `_create_pages` registers, in registration order. */
  const RegisteredPages := ["home", "embed", "extract"]

  const HomePage := "home"

  /** The appearance mode set when the module is loaded. */
  const InitialAppearance := "dark"

  /** The registered pages are exactly the pages of the navigation table,
      so every navigation button leads to a registered page. */
  lemma RegisteredPagesAreNavPages()
    ensures (set p | p in RegisteredPages) == NavPages()
  {
    assert NavItems[0].page == RegisteredPages[0];
    assert NavItems[1].page == RegisteredPages[1];
    assert NavItems[2].page == RegisteredPages[2];
  }

  class BlindWatermarkGui {
    var currentPage: string
    /** `pages`: the names in registration order and whether each is shown. */
    var pageOrder: seq<string>
    var pageVisible: map<string, bool>
    /** `None` until `_create_layout` makes it. */
    var sidebar: Sidebar?
    var bgManager: BackgroundManager
    var appearance: string
    /** The `StringVar`s of `_init_variables`. */
    var originalImgPath: string
    var watermarkContent: string
    var watermarkImgPath: string
    var outputImgPath: string
    var passwordImg: string
    var passwordWm: string
    var wmShape: string
    var wmMode: string

    /** The registration order lists the registered pages, the sidebar has
        one button per registered page, and each button shows its own page. */
    ghost predicate Valid()
      reads this, sidebar
    {
      && sidebar != null
      && (forall p :: p in pageVisible <==> p in pageOrder)
      && sidebar.ButtonsOk()
      && sidebar.navButtons.Keys == pageVisible.Keys
      && (forall p :: p in sidebar.navButtons ==> sidebar.navButtons[p].command == p)
    }

    /** The input defaults of `_init_variables`: both passwords `"1"`, shape
        `"128,128"`, mode `"str"`, all paths and the content empty. */
    predicate DefaultInputs()
      reads this`originalImgPath, this`watermarkContent, this`watermarkImgPath, this`outputImgPath,
            this`passwordImg, this`passwordWm, this`wmShape, this`wmMode
    {
      && originalImgPath == "" && watermarkContent == "" && watermarkImgPath == "" && outputImgPath == ""
      && passwordImg == "1" && passwordWm == "1" && wmShape == "128,128" && wmMode == "str"
    }

    /** `name` is the current page, the only page shown and the only button
        highlighted. */
    ghost predicate Showing(name: string)
      requires sidebar != null
      reads this, sidebar
    {
      && currentPage == name
      && pageVisible == SelectOnly(pageVisible.Keys, name, true, false)
      && sidebar.Styles() == SelectOnly(sidebar.navButtons.Keys, name, Active, Inactive)
    }

    /** `__init__`: load the configuration (`file` and `pathExists` are the
        inputs `load_config` reads), make the background (`openResult` is what
        `Image.open` gives for the saved picture, `win` the window size), set
        the input defaults, build the sidebar and the pages, and show the
        home page. */
    constructor (file: ConfigFile, pathExists: Json -> Option<bool>, openResult: Opened, win: Size)
      ensures Valid() && fresh(sidebar) && fresh(bgManager) && bgManager.hasBgLabel
      ensures pageOrder == RegisteredPages
      ensures Showing(HomePage)
      ensures sidebar.GetTheme() == DefaultTheme && appearance == InitialAppearance
      ensures DefaultInputs()
    {
      var manager := MakeBackground(file, pathExists, openResult, win);
      bgManager := manager;
      appearance := InitialAppearance;
      currentPage := HomePage;
      pageOrder := [];
      pageVisible := map[];
      sidebar := null;
      new;
      InitVariables();
      CreateLayout();
    }

    /** `_create_layout`: the sidebar, then the pages, then the home page. */
    method CreateLayout()
      modifies this`sidebar, this`pageOrder, this`pageVisible, this`currentPage
      ensures Valid() && fresh(sidebar)
      ensures pageOrder == RegisteredPages
      ensures Showing(HomePage)
      ensures sidebar.GetTheme() == DefaultTheme
      ensures bgManager == old(bgManager) && appearance == old(appearance)
    {
      var bar := MakeSidebar();
      sidebar := bar;
      CreatePages();
      var raised := ShowPage(HomePage);
    }

    /** `load_config`, the `BackgroundManager` made on its result, and
        `create_background`. */
    static method MakeBackground(file: ConfigFile, pathExists: Json -> Option<bool>, openResult: Opened, win: Size)
      returns (manager: BackgroundManager)
      ensures fresh(manager) && manager.hasBgLabel
      ensures BackgroundKey in manager.config && OpacityKey in manager.config
      ensures manager.config == LoadedFrom(file, pathExists)
    {
      var config := LoadConfig(file, pathExists);
      manager := new BackgroundManager(config);
      manager.CreateBackground(openResult, win);
      // a successful load writes back the entry it was started from
      assert config[BackgroundKey := config[BackgroundKey]] == config;
    }

    /** The `Sidebar` of `_create_layout`: one inactive button per registered
        page, each showing its own page, and the theme switch on `"dark"`. */
    static method MakeSidebar() returns (bar: Sidebar)
      ensures fresh(bar) && bar.ButtonsOk() && bar.navButtons.Keys == (set p | p in RegisteredPages)
      ensures forall p :: p in bar.navButtons ==> bar.navButtons[p].command == p
      ensures bar.GetTheme() == DefaultTheme
    {
      bar := new Sidebar();
      RegisteredPagesAreNavPages();
    }

    /** `_init_variables`. */
    method InitVariables()
      modifies this`originalImgPath, this`watermarkContent, this`watermarkImgPath, this`outputImgPath,
               this`passwordImg, this`passwordWm, this`wmShape, this`wmMode
      ensures DefaultInputs()
      ensures bgManager == old(bgManager) && appearance == old(appearance)
    {
      originalImgPath := "";
      watermarkContent := "";
      watermarkImgPath := "";
      outputImgPath := "";
      passwordImg := "1";
      passwordWm := "1";
      wmShape := "128,128";
      wmMode := "str";
    }

    /** `_create_pages`: the three pages, none shown yet; the registered
        names are those of the sidebar's buttons. */
    method CreatePages()
      requires sidebar != null && sidebar.ButtonsOk() && sidebar.navButtons.Keys == (set p | p in RegisteredPages)
      requires forall p :: p in sidebar.navButtons ==> sidebar.navButtons[p].command == p
      modifies this`pageOrder, this`pageVisible
      ensures Valid()
      ensures pageOrder == RegisteredPages
      ensures forall p :: p in pageVisible ==> !pageVisible[p]
    {
      pageOrder := RegisteredPages;
      pageVisible := map p | p in RegisteredPages :: false;
    }

    /** `show_page(name)`: record the name, hide every page, show the named
        one and highlight its button. An unregistered name raises `KeyError`
        after every page is hidden, and the sidebar is left as it was. */
    method ShowPage(name: string) returns (raised: bool)
      requires Valid()
      modifies this`currentPage, this`pageVisible, sidebar`navButtons
      ensures Valid()
      ensures currentPage == name
      ensures raised <==> name !in old(pageVisible)
      ensures pageVisible == SelectOnly(old(pageVisible.Keys), name, true, false)
      ensures !raised ==> sidebar.Styles() == SelectOnly(old(sidebar.navButtons.Keys), name, Active, Inactive)
      ensures raised ==> sidebar.navButtons == old(sidebar.navButtons)
    {
      currentPage := name;
      HidePages();
      if name !in pageVisible {
        return true;
      }
      pageVisible := pageVisible[name := true];
      sidebar.UpdateNavButtons(name);
      return false;
    }

    /** The loop of `show_page` that hides every registered page. */
    method HidePages()
      requires forall p :: p in pageVisible <==> p in pageOrder
      modifies this`pageVisible
      ensures pageVisible.Keys == old(pageVisible.Keys)
      ensures forall p :: p in pageVisible ==> !pageVisible[p]
    {
      ghost var before := pageVisible;
      for i := 0 to |pageOrder|
        modifies this`pageVisible
        invariant pageVisible.Keys == before.Keys
        invariant forall p :: p in before ==> pageVisible[p] == if p in pageOrder[..i] then false else before[p]
      {
        var page := pageOrder[i];
        assert pageOrder[..i + 1] == pageOrder[..i] + [page];
        pageVisible := pageVisible[page := false];
      }
      assert pageOrder[..|pageOrder|] == pageOrder;
    }

    /** A click on the navigation button of `name` shows that page and never
        raises, because the button's command names its own, registered page. */
    method ClickNavButton(name: string) returns (raised: bool)
      requires Valid() && name in sidebar.navButtons
      modifies this`currentPage, this`pageVisible, sidebar`navButtons
      ensures Valid() && !raised && currentPage == name
      ensures (set p | p in pageVisible && pageVisible[p]) == {name}
    {
      ghost var pages := pageVisible.Keys;
      raised := ShowPage(sidebar.navButtons[name].command);
      ExactlyOneSelected(pages, name, true, false);
    }

    /** `_toggle_theme`: the appearance follows the switch. */
    method ToggleTheme()
      requires sidebar != null
      modifies this`appearance
      ensures appearance == sidebar.GetTheme()
      ensures sidebar.themeSwitch.None? ==> appearance == DefaultTheme
    {
      appearance := sidebar.GetTheme();
    }
  }
}
