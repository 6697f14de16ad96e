/** The stage the web framework's CharField runs on every submitted text
    (rest_framework's CharField, which the serializers derive from the
    models' CharField, TextField and EmailField columns). */
module Fields {

  import opened Common
  import opened Text

  /** The stage of one text field: surrounding whitespace is stripped; a
      blank value is refused unless the column allows blanks, and is then
      accepted as "" with no further check; otherwise the column's
      `max_length`, when it has one, and the refusal of U+0000 run, and the
      first refusal is reported. The result is the stripped text. */
  function CheckCharField(name: string, value: string, allowBlank: bool, maxLength: Option<nat>): (r: Result<string>)
    ensures r.Ok? <==>
      && (Strip(value) == [] ==> allowBlank)
      && (maxLength.Some? ==> |Strip(value)| <= maxLength.value)
      && '\0' !in Strip(value)
    ensures r.Ok? ==> r.value == Strip(value)
    ensures Strip(value) == [] && !allowBlank ==> r == Err(Invalid(Blank(name)))
    ensures Strip(value) != [] && maxLength.Some? && |Strip(value)| > maxLength.value ==> r == Err(Invalid(TooLong(name)))
    ensures r.Err? ==> r.error in {Invalid(Blank(name)), Invalid(TooLong(name)), Invalid(NullCharacter(name))}
  {
    var v := Strip(value);
    if v == [] then (if allowBlank then Ok([]) else Err(Invalid(Blank(name))))
    else if maxLength.Some? && |v| > maxLength.value then Err(Invalid(TooLong(name)))
    else if '\0' in v then Err(Invalid(NullCharacter(name)))
    else Ok(v)
  }

  /** Submitting again the text a field accepted gives the same text back:
      the stage is idempotent. */
  lemma CheckCharFieldIdempotent(name: string, value: string, allowBlank: bool, maxLength: Option<nat>)
    requires CheckCharField(name, value, allowBlank, maxLength).Ok?
    ensures CheckCharField(name, CheckCharField(name, value, allowBlank, maxLength).value, allowBlank, maxLength)
         == CheckCharField(name, value, allowBlank, maxLength)
  {
    StripIdempotent(value);
  }
}
