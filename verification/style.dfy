/** The visual attributes of a box, filled in with defaults at construction. */
module Style {
  import opened Wrappers

  datatype Style = Style(
    borderWidth: real,
    borderColor: string,
    backgroundColor: Option<string>,
    alpha: real,
    hPadding: real,
    vPadding: real,
    hMargin: real,
    vMargin: real)

  /** The partial argument object of the constructor: `None` is a field left out or given as undefined. */
  datatype StyleOptions = StyleOptions(
    borderWidth: Option<real>,
    borderColor: Option<string>,
    backgroundColor: Option<string>,
    alpha: Option<real>,
    hPadding: Option<real>,
    vPadding: Option<real>,
    hMargin: Option<real>,
    vMargin: Option<real>)

  /** The constructor called without an argument. */
  const NoOptions := StyleOptions(None, None, None, None, None, None, None, None)

  /** The constructor: each field is the supplied value, or its default when absent. No value is checked. */
  function NewStyle(options: StyleOptions): (s: Style)
    ensures s.backgroundColor.Some?
  {
    Style(
      options.borderWidth.GetOr(0.0),
      options.borderColor.GetOr("white"),
      Some(options.backgroundColor.GetOr("black")),
      options.alpha.GetOr(1.0),
      options.hPadding.GetOr(0.0),
      options.vPadding.GetOr(0.0),
      options.hMargin.GetOr(0.0),
      options.vMargin.GetOr(0.0))
  }

  /** Without options every field takes its default; the optional background is still set. */
  lemma DefaultStyle()
    ensures NewStyle(NoOptions) == Style(0.0, "white", Some("black"), 1.0, 0.0, 0.0, 0.0, 0.0)
  {
  }

  /** Every supplied field is copied unchanged, whatever its value (negative sizes, alpha outside [0, 1]). */
  lemma SuppliedFieldsCopied(options: StyleOptions)
    ensures options.borderWidth.Some? ==> NewStyle(options).borderWidth == options.borderWidth.value
    ensures options.borderColor.Some? ==> NewStyle(options).borderColor == options.borderColor.value
    ensures options.backgroundColor.Some? ==> NewStyle(options).backgroundColor == options.backgroundColor
    ensures options.alpha.Some? ==> NewStyle(options).alpha == options.alpha.value
    ensures options.hPadding.Some? ==> NewStyle(options).hPadding == options.hPadding.value
    ensures options.vPadding.Some? ==> NewStyle(options).vPadding == options.vPadding.value
    ensures options.hMargin.Some? ==> NewStyle(options).hMargin == options.hMargin.value
    ensures options.vMargin.Some? ==> NewStyle(options).vMargin == options.vMargin.value
  {
  }

  /** A field left out, or given as undefined, gets the default, including the optional background. */
  lemma OmittedFieldsDefaulted(options: StyleOptions)
    ensures options.borderWidth.None? ==> NewStyle(options).borderWidth == 0.0
    ensures options.borderColor.None? ==> NewStyle(options).borderColor == "white"
    ensures options.backgroundColor.None? ==> NewStyle(options).backgroundColor == Some("black")
    ensures options.alpha.None? ==> NewStyle(options).alpha == 1.0
    ensures options.hPadding.None? ==> NewStyle(options).hPadding == 0.0
    ensures options.vPadding.None? ==> NewStyle(options).vPadding == 0.0
    ensures options.hMargin.None? ==> NewStyle(options).hMargin == 0.0
    ensures options.vMargin.None? ==> NewStyle(options).vMargin == 0.0
  {
  }

  /** No validation: out-of-range values are stored as given. */
  lemma NoValidation(w: real, a: real, p: real)
    requires w < 0.0 && (a < 0.0 || a > 1.0) && p < 0.0
    ensures var s := NewStyle(NoOptions.(borderWidth := Some(w), alpha := Some(a), hPadding := Some(p), vMargin := Some(p)));
            s.borderWidth == w && s.alpha == a && s.hPadding == p && s.vMargin == p
  {
  }
}
