# Invoice PDF generator: the data-to-HTML pipeline

`generate_pdf.py` turns a data file of invoices into a PDF. The user picks a data file,
an HTML template and one invoice from a console menu. This project models the pure and
imperative core between loading the data and rendering the PDF:

- **Shape normalisation** (`read_json_file`, module `Normalize`). An already-parsed JSON
  value becomes the list of records the program iterates over.
- **Identifier derivation** (`get_invoice_ids`, module `InvoiceIds`). Each record gets a
  display identifier. The identifier comes from the first of 13 candidate field names whose
  case-insensitively matched field is truthy. Failing that, it is the first field's value,
  and failing that, the 1-based position.
- **Record lookup** (`find_invoice_by_id`, module `InvoiceIds`). The first record whose
  derived identifier equals the chosen one is returned. Otherwise a second pass compares
  candidate fields and 1-based positions, and then the result is `None`.
- **Template substitution** (`substitute_template`, modules `Substitution` and `Pep292`).
  Record values are prepared: falsy values become `''` and a `$` inside a truthy value is
  doubled. Then `string.Template.safe_substitute` runs as PEP 292 defines it. `$$` is a dollar
  sign. `$name` and `${name}` are placeholders whose name is an ASCII identifier. An unknown
  or malformed placeholder is kept as written. Substituted text is never scanned again.
- **Table building** (`create_html_content`, module `HtmlContent`). This builds a two-row
  HTML table with one `<th>` per key and one `<td>` per value, in dict order. The text is
  escaped with `html.escape(..., quote=True)`. The table is stored under `table_content` in a
  copy of the record, and the copy goes to `substitute_template`.
- **File name** (module `Filename`). The characters `<>:"/\|?*` are deleted from the chosen
  identifier and spaces become `_`. The result is wrapped as `invoice_<id>.pdf`.

JSON data is modelled by `Json.Value`: null, bool, int, str, list, and an object kept as an
ordered sequence of `(key, value)` pairs. `Json.Truthy` is Python's truth test, `Json.Str` is
`str()` and `Json.Lower` is `str.lower()`. Python dicts are values here, so the copy that
`create_html_content` makes leaves the caller's record unchanged by construction.

The loops of the source are methods with loop invariants: `GetInvoiceIds`, `TryCandidates`,
`ScanForKey`, `FirstMatch`, `SearchFallback`, `FieldsMatchId`, `SubstituteTemplate`,
`AppendHeaderCells` and `AppendValueCells`. The methods `DeriveId`, `FindInvoiceById`,
`BuildTable` and `CreateHtmlContent` have no loop of their own: they run the looping methods
in the order the source does. Each method is proved equal to a specification function, and
the lemmas state the properties of those functions.

The 13 candidate field names are the constant `InvoiceIds.PossibleKeys`. Every function and
lemma about identifiers takes the list as a parameter `keys`, so each result holds for any
candidate list and therefore for this one. `InvoiceIds.CandidatesNotPlaceholders` is about
`PossibleKeys` itself: five of its names can never appear as template placeholders.

The repository holds a second variant, `stom PDF/generate_pdf.py`. That variant has
`AUTO-<n>` identifiers with last-write-wins indexing (its lines 184-194), `{{key}}` and
dotted `{{a.b}}` tokens (lines 212-218) and case-insensitively sorted identifiers
(line 379). The top-level `generate_pdf.py` modelled here has none of these. Its
placeholders are PEP 292 ones, its position fallback is the plain 1-based number, and the
first matching identifier wins.

## Model

| member | source | states |
|---|---|---|
| Json.Str | generate_pdf.py:296 | str() of a string is the string itself, and str() is empty only for the empty string |
| Json.IntToString | generate_pdf.py:296 | str() of an int is never empty; it is the decimal digits, preceded by '-' exactly for a negative number |
| Json.NatToString | generate_pdf.py:292-296 | str(idx + 1) is a nonempty run of decimal digits with no leading zero |
| Json.ParseNatToString | generate_pdf.py:296 | reading the digits of str(n) back gives n |
| Json.NatToStringInjective | generate_pdf.py:292-296 | different positions give different position identifiers |
| Json.Lower | generate_pdf.py:278-281 | lower-casing keeps the length and lower-cases every character on its own |
| Json.Lookup | generate_pdf.py:282 | d[key] is missing exactly when no pair has that key, and otherwise is the value of a pair with that key |
| Json.WithField | generate_pdf.py:386 | d[key] = v keeps every existing key in its place and appends a new key at the end |
| Json.WithFieldLookup | generate_pdf.py:386 | after d[key] = v, d[key] is v and every other key reads as before |
| Json.WithFieldDistinct | generate_pdf.py:385-386 | inserting table_content keeps the keys of the copy distinct |
| Json.LookupAppend | generate_pdf.py:359 | appending a pair under another key does not change a lookup |
| Json.LookupInsert | generate_pdf.py:359 | a pair under another key, at any place in the dict, does not change a lookup |
| Normalize.FirstListField | generate_pdf.py:244-246 | finds the first list-valued field in key order, or reports that there is none |
| Normalize.ReadJson | generate_pdf.py:242-255 | a failure gives []; a list is returned as it is; an object gives its first list-valued field, or [object] if it has none; any other value v gives [v] |
| Normalize.DictOfRecordsIsOneRecord | generate_pdf.py:242-248 | an object whose fields are all records is one record, not a list of them |
| InvoiceIds.MatchIndex | generate_pdf.py:278-283 | the first field, in the item's order, whose name equals the key ignoring case; none exactly when no name matches |
| InvoiceIds.CandidateIndex | generate_pdf.py:277-285 | the earliest candidate whose matched field is truthy; every earlier candidate misses or holds a falsy value |
| InvoiceIds.GetInvoiceIds | generate_pdf.py:258-298 | one identifier per item, in input order (none for no items), each the one ItemId derives |
| InvoiceIds.DeriveId | generate_pdf.py:272-296 | the identifier of one item: str() of the first truthy candidate; else str() of the first value, or the 1-based position if that value is None, the object is empty or the item is not an object |
| InvoiceIds.TryCandidates | generate_pdf.py:277-285 | the candidate loop ends with a truthy value exactly when some candidate matches a truthy field, and that value is the one of the earliest such candidate |
| InvoiceIds.ScanForKey | generate_pdf.py:280-283 | the scan finds a value exactly when a name matches, and it is the value of the first matching field |
| InvoiceIds.CandidateIdIgnoresPosition | generate_pdf.py:277-296 | an object with a truthy candidate gets a nonempty identifier that does not depend on its position |
| InvoiceIds.MatchIndexIgnoresCase | generate_pdf.py:278-281 | renaming fields to names that lower-case alike does not change which field matches |
| InvoiceIds.CandidateIndexIgnoresCase | generate_pdf.py:277-285 | the same for the choice of candidate |
| InvoiceIds.ItemIdIgnoresKeyCase | generate_pdf.py:272-296 | the same for the derived identifier |
| InvoiceIds.FirstIndexOf | generate_pdf.py:314 | list.index: the first position holding x, and none exactly when x is absent |
| InvoiceIds.PositionOf | generate_pdf.py:328 | data.index(item) is the first position holding an equal item: at or before the item's own position, with no equal item before it |
| InvoiceIds.FirstMatch | generate_pdf.py:313-315 | the loop finds the first identifier equal to the requested one |
| InvoiceIds.FieldsMatchId | generate_pdf.py:321-325 | true exactly when some candidate matches some field, ignoring case, whose str() equals the identifier |
| InvoiceIds.SearchFallback | generate_pdf.py:316-331 | the first item that has such a field or whose 1-based position is the identifier; None if there is none |
| InvoiceIds.FindInvoiceById | generate_pdf.py:301-331 | the item of the first equal derived identifier; otherwise the second-chance result |
| InvoiceIds.FindNoneIff | generate_pdf.py:301-331 | None exactly when no derived identifier, candidate field or position matches; otherwise one of the items |
| InvoiceIds.FindFirstMatchWins | generate_pdf.py:310-315 | the identifier of item i finds the first item with that identifier, never one after i |
| InvoiceIds.FindDistinctIds | generate_pdf.py:310-315 | when identifiers are distinct, the identifier of item i finds item i |
| InvoiceIds.FindScalarByPosition | generate_pdf.py:293-315 | in a list of non-objects, the position i + 1 finds item i |
| Pep292.IdentRun | generate_pdf.py:359 | the placeholder name is the longest run of identifier characters |
| Pep292.NoDollarUnchanged | generate_pdf.py:359 | a template without '$' comes back unchanged |
| Pep292.PlainPrefix | generate_pdf.py:359 | text before the first '$' is copied as it is |
| Pep292.DoubleDollars | generate_pdf.py:353 | replace('$', '$$') never shortens, changes nothing without '$', and changes any text with one |
| Pep292.SubstituteUndoesDoubling | generate_pdf.py:353-359 | substituting into a template whose dollars are all doubled gives the text back |
| Pep292.NamedPlaceholder | generate_pdf.py:359 | "$name" becomes str() of the mapped value, or stays as written for a missing key |
| Pep292.BracedPlaceholder | generate_pdf.py:359 | "${name}" becomes str() of the mapped value, or stays as written for a missing key |
| Pep292.OnlyIdentifiersMatter | generate_pdf.py:359 | two mappings that agree on every identifier give the same output for every template |
| Pep292.UnreachableKey | generate_pdf.py:359 | a field whose key is not an identifier (номер, invoice-id), wherever it stands among the other fields, never changes the output |
| Pep292.StrayDollarKept | generate_pdf.py:359 | a '$' at the end, or before a character that is not '$', '{' or an identifier start, is kept as written |
| Pep292.BadBraceKept | generate_pdf.py:359 | "${" not followed by an identifier start is kept as written |
| Pep292.UnclosedBraceKept | generate_pdf.py:359 | "${name" not closed by '}' right after the name is kept as written, name included |
| InvoiceIds.CandidatesNotPlaceholders | generate_pdf.py:266-270 | invoice-id, номер, номер_счета, счет and check-id are not ASCII identifiers |
| InvoiceIds.CandidateFieldUnreachable | generate_pdf.py:266-270 | a record field under one of those five candidate names, at any place in the record, never changes the substituted template |
| Substitution.SafeValue | generate_pdf.py:352-356 | a falsy value becomes '', a truthy one shows its str() with '$' doubled, and truthiness is kept |
| Substitution.SafeData | generate_pdf.py:349-356 | safe_data has the record's keys in order, each with its prepared value |
| Substitution.LookupSafeData | generate_pdf.py:349-356 | safe_data[key] exists exactly when the record has key, and is its prepared value |
| Substitution.SubstituteTemplate | generate_pdf.py:344-362 | the loop builds safe_data and the result is safe_substitute over it |
| Substitution.SubstituteField | generate_pdf.py:349-359 | "$name" gives '' for a falsy value, the doubled str() of a truthy one, and itself for a missing key |
| Substitution.SubstituteBracedField | generate_pdf.py:349-359 | the same for "${name}" |
| Substitution.DollarShowsTwice | generate_pdf.py:352-359 | as written: a value with a '$' comes out with each '$' doubled, not as the record holds it |
| Substitution.IntendedValue | generate_pdf.py:356 | corrected preparation: a falsy value becomes '', a truthy one keeps its str() |
| Substitution.IntendedData | generate_pdf.py:349-356 | the corrected safe_data: the record's keys in order with corrected values |
| Substitution.LookupIntendedData | generate_pdf.py:349-356 | a corrected lookup exists exactly when the record has the key |
| Substitution.IntendedField | generate_pdf.py:349-359 | corrected: "$name" shows a truthy value's str() exactly |
| Substitution.IntendedBracedField | generate_pdf.py:349-359 | corrected: the same for "${name}" |
| Substitution.DollarShowsOnce | generate_pdf.py:352-359 | corrected: the placeholder gives the record's text, '$' included |
| Substitution.SubstituteTemplateIntended | generate_pdf.py:344-362 | the corrected loop gives safe_substitute over the corrected safe_data |
| Substitution.NoDollarsNoDifference | generate_pdf.py:352-356 | with no '$' in any truthy value, the code as written and the correction prepare the same data |
| HtmlContent.EscapedHasNoMarkup | generate_pdf.py:372 | escaped text holds no < > " or ' |
| HtmlContent.EscapePlainText | generate_pdf.py:372 | text without & < > " ' is left as it is |
| HtmlContent.UnescapeEscapeChar | generate_pdf.py:372 | the entity of one character reads back as that character |
| HtmlContent.UnescapeEscape | generate_pdf.py:372 | escaping loses nothing: unescaping gives the text back |
| HtmlContent.EscapeInjective | generate_pdf.py:372 | different texts escape differently |
| HtmlContent.CellTextsReadBack | generate_pdf.py:371-380 | each header cell unescapes to its key and each value cell to str() of its value ('' when falsy), and no cell text holds a '<' |
| HtmlContent.AppendHeaderCells | generate_pdf.py:371-373 | the first loop appends exactly the <th> cells of all keys, in order |
| HtmlContent.AppendValueCells | generate_pdf.py:378-380 | the second loop appends exactly the <td> cells of all values, in order |
| HtmlContent.BuildTable | generate_pdf.py:367-382 | the built text is the table: head, the <th> cells, middle, the <td> cells, tail |
| HtmlContent.CellTextReadsBack | generate_pdf.py:379 | a value cell unescapes to str() of the value, and is empty exactly for a falsy value |
| HtmlContent.CellTextsHaveNoLt | generate_pdf.py:372-379 | no cell text holds a '<', so a cell cannot end early |
| HtmlContent.CellsInjective | generate_pdf.py:371-380 | a run of cells followed by a tag determines the cell texts and what follows |
| HtmlContent.TableDeterminesRecord | generate_pdf.py:367-382 | the table determines the record's keys in order, which values are truthy, and str() of each truthy value |
| HtmlContent.CreateHtmlContent | generate_pdf.py:365-391 | the result is safe_substitute over the prepared copy of the record with table_content added |
| HtmlContent.TemplateDataLookup | generate_pdf.py:385-386 | the copy reads as the record for every key but table_content, which holds the table, and keeps the record's keys in order |
| HtmlContent.AddedFieldPlaceholder | generate_pdf.py:386-389 | a nonempty text stored under an identifier key comes out of "${key}" with each '$' doubled |
| HtmlContent.TableContentPlaceholder | generate_pdf.py:385-389 | "${table_content}" gives the table, with each '$' doubled |
| HtmlContent.RecordFieldNotEscaped | generate_pdf.py:385-389 | any other "$name" gives the record's value without HTML escaping; only the table is escaped |
| HtmlContent.IntendedAddedField | generate_pdf.py:386-389 | corrected: a stored text comes out of "${key}" unchanged |
| HtmlContent.IntendedTableContent | generate_pdf.py:385-389 | corrected: "${table_content}" gives the table exactly as built |
| Filename.RemoveForbidden | generate_pdf.py:559 | the result is no longer than the input and holds none of the nine characters the pattern deletes |
| Filename.RemoveForbiddenAppend | generate_pdf.py:559 | deletion works character by character: it distributes over concatenation |
| Filename.RemoveForbiddenCounts | generate_pdf.py:559 | every other character is kept as often as it occurs, and forbidden ones occur no more |
| Filename.RemoveForbiddenKeepsClean | generate_pdf.py:559 | a name without forbidden characters is left as it is |
| Filename.SpacesToUnderscoresCounts | generate_pdf.py:560 | no space is left; '_' counts the old spaces and underscores, and every other character keeps its count |
| Filename.SafeFilenameShape | generate_pdf.py:559-561 | the name is invoice_ + the cleaned identifier + .pdf, one character per kept character, with no forbidden character and no space inside |
| Filename.SafeFilenameClean | generate_pdf.py:559-561 | the whole file name holds no forbidden character and no space |
| Filename.ForbiddenCharVanishes | generate_pdf.py:559-561 | a forbidden character anywhere in the identifier does not change the file name |
| Filename.SpaceMeetsUnderscore | generate_pdf.py:559-561 | identifiers differing only in a space against an '_' get the same file name |

## Left out

- `read_csv_file` is not modelled. It depends on pandas, `csv.Sniffer`, the encoding loop over `utf-8-sig` and `cp1251`, and numeric and NaN typing done by the library.
- `json.load`, file opening and `read_template` are not modelled. `Normalize.ReadJson` starts from the parse outcome, and every exception is the single `ParseFailure` case.
- `generate_pdf`, `get_css_styles` and `get_font_config` are not modelled: they hand the HTML to the WeasyPrint engine together with a constant stylesheet.
- `open_pdf`, `scan_data_files`, `scan_templates`, `display_menu`, `get_user_choice` and the rest of `main` are not modelled. They are operating-system calls, directory scans and an interactive console loop.
- `main` wraps a non-dict record as `{'data': record}` before building the HTML. That step is not modelled; `CreateHtmlContent` takes the record as a dict.
- Floating-point JSON numbers are not in `Json.Value`, so their `str()` is not modelled.
- Json.Lower: lower-cases ASCII A–Z and the basic Cyrillic capitals (А–Я and Ѐ–Џ) only. Python's `str.lower` covers all of Unicode.
- Json.Repr: for strings, escapes only the backslash, the quote in use, `\n`, `\r` and `\t`. Python also escapes other non-printable characters.
- InvoiceIds.FindInvoice: `None` means that nothing matched. A JSON `null` item that is found comes back as `Some(VNull)`, where the source returns `None` (generate_pdf.py:315) and its caller cannot tell that from no match (generate_pdf.py:546). The model is finer than the source here.
- InvoiceIds.PositionOf: `data.index` compares items with Dafny's structural equality. Python's `==` also equates dicts whose keys are in a different order, and `True` with `1`.
- InvoiceIds.GetInvoiceIds: the candidate list is a parameter `keys`. `PossibleKeys` holds the 13 names the source lists, and every proved property holds for any list.
- Pep292.SafeSubstitute: models only the default delimiter and identifier pattern of `string.Template`, which is all the source uses.
- Pep292.SafeSubstitute: a mapping value is rendered with `Json.Str`, as `safe_substitute` applies `str()`.
- Exceptions raised inside `substitute_template` are not modelled. `safe_substitute` raises none for the supported templates.

## Findings

| source | as written | input that shows it | evidently intended | confidence | as-written member | corrected member |
|---|---|---|---|---|---|---|
| generate_pdf.py:352-359 | every '$' in a truthy value is doubled before `safe_substitute`, which never re-scans substituted text, so the doubled '$$' reaches the output; this also applies to `${table_content}` | record `{"price": "$5"}` with template `$price` gives `$$5` | the value's own text, `$5` | high (not executed) | Substitution.DollarShowsTwice | Substitution.DollarShowsOnce |

`SubstituteTemplate`, `CreateHtmlContent` and `TableContentPlaceholder` model the code as
written. The corrected preparation is `Substitution.IntendedData`, and
`SubstituteTemplateIntended`, `IntendedField` and `IntendedTableContent` state it for the
whole pipeline. `NoDollarsNoDifference` shows that both versions prepare the same data when
no value contains a '$'.
