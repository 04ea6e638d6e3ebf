/**
 * The editor's `TextFieldValue`: the edited text together with the cursor
 * selection and IME composition range.  Only `text` matters to the history,
 * which compares snapshots by their text alone.
 */
module TextFieldValues {
  import opened Wrappers

  datatype TextRange = TextRange(start: int, end: int)

  datatype TextFieldValue = TextFieldValue(text: string, selection: TextRange, composition: Option<TextRange>)
}
