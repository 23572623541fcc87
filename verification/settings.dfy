/**
  The settings screen (app/settings.tsx): theme and font-size choice, and the
  two-phase security-code dialog (enter a code, then enter it again to
  confirm). The screen shows only a loading text while the settings are
  still null, so its handlers run only with settings present.
 */
module Settings {
  import opened Common
  import opened Types
  import S = Store

  /** `handleThemeChange`: only the theme changes. */
  function ChangeTheme(s: S.Store, theme: Theme): (r: S.Store)
    requires s.appSettings.Some?
    ensures r.appSettings == Some(s.appSettings.value.(theme := theme))
    ensures r == s.(appSettings := r.appSettings)
  {
    S.UpdateAppSettings(s, s.appSettings.value.(theme := theme))
  }

  /** `handleFontSizeChange`: only the font size changes. */
  function ChangeFontSize(s: S.Store, size: FontSize): (r: S.Store)
    requires s.appSettings.Some?
    ensures r.appSettings == Some(s.appSettings.value.(fontSize := size))
    ensures r == s.(appSettings := r.appSettings)
  {
    S.UpdateAppSettings(s, s.appSettings.value.(fontSize := size))
  }

  /** The two choices are independent: applying them in either order gives the same settings. */
  lemma ThemeAndFontCommute(s: S.Store, theme: Theme, size: FontSize)
    requires s.appSettings.Some?
    ensures ChangeFontSize(ChangeTheme(s, theme), size) == ChangeTheme(ChangeFontSize(s, size), theme)
    ensures ChangeFontSize(ChangeTheme(s, theme), size).appSettings.value.securityCode == s.appSettings.value.securityCode
  {
  }

  // ---------------------------------------------------------------------------
  // The security-code dialog

  /** Dialog state: shown or not, the two inputs, and the phase (entering or confirming). */
  datatype CodeForm = CodeForm(visible: bool, code: string, confirm: string, confirming: bool)

  /** Closed, both inputs empty, first phase: the state every close path restores. */
  const Closed: CodeForm := CodeForm(false, "", "", false)

  datatype Notice = EnterCode | CodesDiffer | CodeSaved

  datatype Outcome = Outcome(store: S.Store, form: CodeForm, notice: Option<Notice>)

  function Open(f: CodeForm): (r: CodeForm)
    ensures r == f.(visible := true)
  {
    f.(visible := true)
  }

  /** The close button, the cancel button and the system back gesture. */
  function Cancel(f: CodeForm): (r: CodeForm)
    ensures !r.visible && r.code == "" && r.confirm == "" && !r.confirming
  {
    Closed
  }

  /** The one text field edits the code in the first phase and the confirmation in the second. */
  function Type(f: CodeForm, text: string): (r: CodeForm)
    ensures f.confirming ==> r == f.(confirm := text)
    ensures !f.confirming ==> r == f.(code := text)
  {
    if f.confirming then f.(confirm := text) else f.(code := text)
  }

  /** `handleSetSecurityCode`. */
  function Submit(s: S.Store, f: CodeForm): (r: Outcome)
    requires s.appSettings.Some?
    ensures !f.confirming && Blank(f.code) ==> r == Outcome(s, f, Some(EnterCode))
    ensures !f.confirming && !Blank(f.code) ==> r == Outcome(s, f.(confirming := true), None)
    ensures f.confirming && f.code != f.confirm ==>
      r == Outcome(s, f.(code := "", confirm := "", confirming := false), Some(CodesDiffer))
    ensures f.confirming && f.code == f.confirm ==>
      && r.store.appSettings == Some(s.appSettings.value.(securityCode := Some(f.code), securityEnabled := true))
      && r.store == s.(appSettings := r.store.appSettings)
      && r.form == Closed
      && r.notice == Some(CodeSaved)
  {
    if !f.confirming then
      if Blank(f.code) then Outcome(s, f, Some(EnterCode))
      else Outcome(s, f.(confirming := true), None)
    else if f.code != f.confirm then
      Outcome(s, f.(code := "", confirm := "", confirming := false), Some(CodesDiffer))
    else
      var st := s.appSettings.value;
      Outcome(S.UpdateAppSettings(s, st.(securityCode := Some(f.code), securityEnabled := true)), Closed, Some(CodeSaved))
  }

  /** Only a nonblank code ever reaches the confirming phase. */
  predicate Consistent(f: CodeForm) {
    f.confirming ==> !Blank(f.code)
  }

  lemma ConsistentKept(s: S.Store, f: CodeForm, text: string)
    requires s.appSettings.Some? && Consistent(f)
    ensures Consistent(Open(f)) && Consistent(Cancel(f)) && Consistent(Type(f, text))
    ensures Consistent(Submit(s, f).form)
  {
  }

  /** Hence the code the dialog saves is never blank, and only the code and the switch change. */
  lemma SavedCodeNotBlank(s: S.Store, f: CodeForm)
    requires s.appSettings.Some? && Consistent(f)
    requires Submit(s, f).store != s
    ensures var st := Submit(s, f).store.appSettings.value;
      && st.securityCode.Some? && !Blank(st.securityCode.value) && st.securityEnabled
      && st.theme == s.appSettings.value.theme
      && st.fontSize == s.appSettings.value.fontSize
      && st.profileImageUri == s.appSettings.value.profileImageUri
  {
  }

  /** Entering a code, pressing Next, entering it again and pressing Save stores it and closes the dialog. */
  lemma SetCodeFlow(s: S.Store, code: string)
    requires s.appSettings.Some? && !Blank(code)
    ensures var f1 := Type(Open(Closed), code);
      var o1 := Submit(s, f1);
      var o2 := Submit(o1.store, Type(o1.form, code));
      && o1.store == s && o1.notice.None? && o1.form.confirming
      && o2.store.appSettings.value.securityCode == Some(code)
      && o2.store.appSettings.value.securityEnabled
      && o2.form == Closed && o2.notice == Some(CodeSaved)
  {
  }

  /** A different confirmation returns to the first phase with empty inputs and stores nothing. */
  lemma MismatchFlow(s: S.Store, code: string, other: string)
    requires s.appSettings.Some? && !Blank(code) && other != code
    ensures var o1 := Submit(s, Type(Open(Closed), code));
      var o2 := Submit(o1.store, Type(o1.form, other));
      && o2.store == s && o2.notice == Some(CodesDiffer)
      && o2.form == CodeForm(true, "", "", false)
  {
  }
}
