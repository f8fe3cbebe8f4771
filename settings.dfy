/**
 * The CSV import settings the controllers pass to `pandas.read_csv`, and the
 * two ways they are read from the settings dialog: the GTK version parses
 * the header and skip-rows entries as integers, the Qt version stores every
 * entry as text. In both, the text `None` stands for Python's `None`.
 */
module Settings {
  import opened Wrappers
  import opened Text

  /** `header='infer'` or a header row number. */
  datatype Header = Infer | Row(row: int)

  /** The GTK controller's import settings. */
  datatype ImportSettings = ImportSettings(
    sep: string, header: Header, skiprows: Option<int>, dtype: Option<string>, encoding: Option<string>)

  /** The settings the GTK controller starts with. */
  const Defaults: ImportSettings := ImportSettings(",", Infer, None, None, None)

  /** The entries of the GTK settings dialog. */
  datatype DialogTexts = DialogTexts(
    sep: string, header: string, skiprows: string, dtype: string, encoding: string, fitMethod: string)

  /** An entry where the text `None` means Python's `None` and any other text is kept verbatim. */
  function NoneOr(t: string): (r: Option<string>)
    ensures r.None? <==> t == "None"
    ensures r.Some? ==> r.value == t
  {
    if t == "None" then None else Some(t)
  }

  /** The header entry: `infer`, or else what `int()` makes of the text (None when it raises). */
  function ParseHeader(t: string): (r: Option<Header>)
    ensures t == "infer" ==> r == Some(Infer)
    ensures t != "infer" ==> (r.Some? <==> ParseInt(t).Some?) && (r.Some? ==> r.value == Row(ParseInt(t).value))
  {
    if t == "infer" then Some(Infer)
    else match ParseInt(t)
      case None => None
      case Some(n) => Some(Row(n))
  }

  /** The skip-rows entry: `None`, or else what `int()` makes of the text (the outer None when it raises). */
  function ParseSkip(t: string): (r: Option<Option<int>>)
    ensures t == "None" ==> r == Some(None)
    ensures t != "None" ==> (r.Some? <==> ParseInt(t).Some?) && (r.Some? ==> r.value == ParseInt(t))
  {
    if t == "None" then Some(None)
    else match ParseInt(t)
      case None => None
      case Some(n) => Some(Some(n))
  }

  /**
   * `run_settings_dialog` on Apply: the fields are assigned in dialog
   * order, so an entry that `int()` rejects raises after the fields before
   * it were stored, and the fit method is only set when nothing raised.
   * The result is the new settings, the new fit method and whether the
   * handler completed.
   */
  function ApplyDialog(s: ImportSettings, fm: Option<string>, t: DialogTexts): (r: (ImportSettings, Option<string>, bool))
    ensures r.2 <==> ParseHeader(t.header).Some? && ParseSkip(t.skiprows).Some?
    ensures r.0.sep == t.sep
    ensures r.0.header == ParseHeader(t.header).GetOr(s.header)
    ensures r.2 ==> r.1 == Some(t.fitMethod) && r.0.skiprows == ParseSkip(t.skiprows).value
    ensures r.2 ==> r.0.dtype == NoneOr(t.dtype) && r.0.encoding == NoneOr(t.encoding)
    ensures !r.2 ==> r.1 == fm && r.0.skiprows == s.skiprows && r.0.dtype == s.dtype && r.0.encoding == s.encoding
  {
    var s1 := s.(sep := t.sep);
    match ParseHeader(t.header)
    case None => (s1, fm, false)
    case Some(h) =>
      var s2 := s1.(header := h);
      match ParseSkip(t.skiprows)
      case None => (s2, fm, false)
      case Some(k) => (s2.(skiprows := k, dtype := NoneOr(t.dtype), encoding := NoneOr(t.encoding)), Some(t.fitMethod), true)
  }

  /** The text an entry shows for a header setting. */
  function HeaderText(h: Header): string {
    match h
    case Infer => "infer"
    case Row(n) => IntToString(n)
  }

  /** The text an entry shows for an optional number. */
  function NumberText(o: Option<int>): string {
    match o
    case None => "None"
    case Some(n) => IntToString(n)
  }

  /** The text an entry shows for an optional string. */
  function OptionText(o: Option<string>): string {
    match o
    case None => "None"
    case Some(t) => t
  }

  /** The dialog entries that display settings `v` and fit method `fm`. */
  function TextsOf(v: ImportSettings, fm: string): DialogTexts {
    DialogTexts(v.sep, HeaderText(v.header), NumberText(v.skiprows), OptionText(v.dtype), OptionText(v.encoding), fm)
  }

  /** A printed integer is neither `infer` nor `None`. */
  lemma IntTextIsNoKeyword(n: int)
    ensures IntToString(n) != "infer" && IntToString(n) != "None"
  {
    var s := IntToString(n);
    if n < 0 {
      assert s[0] == '-';
    } else {
      assert s == NatToString(n);
      assert IsDigit(s[0]);
    }
  }

  /** The header entry reads back the header it displays. */
  lemma ParseHeaderText(h: Header)
    ensures ParseHeader(HeaderText(h)) == Some(h)
  {
    if h.Row? {
      IntTextIsNoKeyword(h.row);
      ParseIntOfIntToString(h.row);
    }
  }

  /** The skip-rows entry reads back the setting it displays. */
  lemma ParseSkipText(o: Option<int>)
    ensures ParseSkip(NumberText(o)) == Some(o)
  {
    if o.Some? {
      IntTextIsNoKeyword(o.value);
      ParseIntOfIntToString(o.value);
    }
  }

  /**
   * Applying the dialog to the texts that display some settings gives
   * back exactly those settings, unless a dtype or encoding is the string
   * `None`, which no text can produce.
   */
  lemma ApplyDisplayed(s: ImportSettings, fm0: Option<string>, v: ImportSettings, fm: string)
    ensures ApplyDialog(s, fm0, TextsOf(v, fm)) == (v, Some(fm), true) <==>
      v.dtype != Some("None") && v.encoding != Some("None")
  {
    ParseHeaderText(v.header);
    ParseSkipText(v.skiprows);
  }

  // ----- kfit/kfit_old.py set_import_settings -----

  /** The Qt controller's import settings: every entry kept as text, `None` aside. */
  datatype QtImportSettings = QtImportSettings(
    sep: string, header: string, skiprows: Option<string>, dtype: Option<string>, encoding: Option<string>)

  /** The entries of the Qt settings dialog. */
  datatype QtTexts = QtTexts(sep: string, header: string, skiprows: string, dtype: string, encoding: string)

  /** `set_import_settings`: separator and header verbatim; skip rows, dtype and encoding `None` for the text `None`. */
  function SetImportSettings(t: QtTexts): (r: QtImportSettings)
    ensures r.sep == t.sep && r.header == t.header
    ensures (r.skiprows.None? <==> t.skiprows == "None") && (r.skiprows.Some? ==> r.skiprows.value == t.skiprows)
    ensures (r.dtype.None? <==> t.dtype == "None") && (r.dtype.Some? ==> r.dtype.value == t.dtype)
    ensures (r.encoding.None? <==> t.encoding == "None") && (r.encoding.Some? ==> r.encoding.value == t.encoding)
  {
    QtImportSettings(t.sep, t.header, NoneOr(t.skiprows), NoneOr(t.dtype), NoneOr(t.encoding))
  }

  /** The Qt dialog entries that display settings `v`. */
  function QtTextsOf(v: QtImportSettings): QtTexts {
    QtTexts(v.sep, v.header, OptionText(v.skiprows), OptionText(v.dtype), OptionText(v.encoding))
  }

  /** Storing and redisplaying the Qt entries gives back the texts typed. */
  lemma QtTextsRoundTrip(t: QtTexts)
    ensures QtTextsOf(SetImportSettings(t)) == t
  {
  }

  /** Displaying Qt settings and storing them again gives them back unless one of them is the string `None`. */
  lemma QtSettingsRoundTrip(v: QtImportSettings)
    ensures SetImportSettings(QtTextsOf(v)) == v <==>
      v.skiprows != Some("None") && v.dtype != Some("None") && v.encoding != Some("None")
  {
  }
}
