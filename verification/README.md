# PROM-9 prompt engine in Dafny

A model of the prompt-rendering pipeline of `prompt_engine`, with proofs about it.
The pipeline takes a task form, a profile and a context. It builds a template
payload with per-key defaults and routes on the normalised area to one of four
PROM-9 templates: IT, ventas, contabilidad, and gestión as the catch-all. It
then joins the rendered template, the attachment section and, for IT, the
mandatory technical guidelines into the final prompt.

Around that core the model also covers:

- the attachment reader: type allow-list, fixed-size blocks, section layout;
- the task record and its dictionary form;
- the append-only task history;
- the line escaping and story order of the PDF export;
- the pure steps of the desktop form: list splitting, the record dialog, form
  collection and validation, attaching files, template choice, and renaming.

Modules, one per source file:

- `Results` holds `Option` and `Result`.
- `PyText` holds the Python string primitives the code relies on:
  `strip`, `lower`, `split`, `splitlines`, `join` and `replace`.
- `PyDict` holds dictionary values, `dict.get`, truthiness and f-string display.
- `Attachments`, `Prom9Base`, `ItTemplate`, `VentasTemplate`,
  `ContabilidadTemplate`, `GestionTemplate`, `Motor`, `Schemas`, `Storage`,
  `PdfExport` and `UiForms` follow the source files of the same names.

Inputs the code reads from the outside are parameters:

- File reading is an oracle: a map from each existing regular file to the text
  reading it yields, or to the reason it failed.
- The stored history is what `json.load` makes of the file: missing,
  undecodable, an exception that reaches the caller, or a decoded list of
  records.
- The wall clock is a parameter: `now` for one record, and `clock(i)` for the
  i-th record of a listing.
- Widget contents are maps from field name to text, or sequences of dialog rows.

Where the code and its design description differ, the model follows the code:

- The base template splits a string specialisation on commas only. Line breaks
  do not separate items.
- The ventas and gestión extensions iterate a string specialisation character
  by character.
- `guardar_tarea` appends without an upsert and without sorting. `listar_tareas`
  returns records in stored order.
- The final prompt is not stripped.
- `generar_prompt` never copies the profile's `especializacion_agricola` into
  the payload. So no generated prompt carries line 10 or an agricultural line.

## Model

| member | source | states |
|---|---|---|
| Attachments.ValidTypeByExtension | prompt_engine/attachments.py:8-13 | A file `stem.ext` in any directory is accepted exactly when the lower-cased `.ext` is one of `.py .json .txt .md .pdf`, whatever dots the stem holds |
| Attachments.ExtensionCaseInsensitive | prompt_engine/attachments.py:11-13 | The suffix is lower-cased before the check, so a file is accepted exactly when the same name with its extension in lower case is (`informe.PY` like `informe.py`) |
| Attachments.DotFileRejected | prompt_engine/attachments.py:11-13 | A name that is only a dot and an extension (`.py`) has no suffix and is refused |
| Attachments.DividirEnBloques | prompt_engine/attachments.py:16-30 | Fails with the `max_chars` error exactly when the limit is not positive. Otherwise the blocks concatenate back to the text, and there are ceil(len/limit) of them, one for the empty text |
| Attachments.ChunksLaws | prompt_engine/attachments.py:21-30 | A text that fits is its own only block. A longer one gives at least two blocks, each but the last of exactly the limit, the last non-empty and within it. Blocks concatenate to the text; the count is ceil(len/limit) |
| Attachments.FileSections | prompt_engine/attachments.py:70-89 | One path succeeds exactly when it is an existing file of a supported type whose text can be read and the limit is positive. A missing file is reported by its path, an unsupported one by its name |
| Attachments.AllSections | prompt_engine/attachments.py:70-89 | All paths succeed exactly when each does |
| Attachments.AllSectionsFailure | prompt_engine/attachments.py:70-89 | A failure is the error of some path all of whose predecessors succeeded |
| Attachments.LeerArchivos | prompt_engine/attachments.py:63-91 | No paths give `""`. Otherwise it succeeds exactly when every path is readable and the limit is positive, and the output then starts with the section header. An error is the one of the first failing path |
| Attachments.LeerArchivosLayout | prompt_engine/attachments.py:68-91 | On success the section is the header followed, per file in input order, by a `--- name ---` heading and the whole text, or by an `[AVISO]` notice with the block count and limit and the `[Bloque i/N]` blocks. Only trailing whitespace is trimmed |
| Prom9Base.FormatearEspecializacionAgricola | prompt_engine/plantillas/prom9_base.py:8-17 | The specialisation line is empty exactly when the value is absent or falsy; otherwise it starts with the `10)` lead and ends with `.` and a newline |
| Prom9Base.SpecializationLine | prompt_engine/plantillas/prom9_base.py:12-17 | A written line 10 lists the items joined by `", "` |
| Prom9Base.CommaItemsAreFields | prompt_engine/plantillas/prom9_base.py:12-13 | Splitting a string on commas, stripping and dropping blanks gives exactly the stripped non-blank comma-separated fields; line breaks stay inside items |
| Prom9Base.SpecializationWithoutCommas | prompt_engine/plantillas/prom9_base.py:12-17 | A non-blank string without commas is one item, its stripped text, line breaks included |
| Prom9Base.EmptyItemLine | prompt_engine/plantillas/prom9_base.py:10-17 | A non-empty string of only commas and spaces is truthy, so line 10 is still written, with no items |
| Prom9Base.RenderBase | prompt_engine/plantillas/prom9_base.py:20-33 | Succeeds exactly when the nine keys are present; otherwise the KeyError names the first missing key in reading order. The text starts with the title line and ends with lines 8 and 9 and the specialisation line, and always with a newline |
| Prom9Base.RenderBaseText | prompt_engine/plantillas/prom9_base.py:20-33 | For every payload, values holding line breaks included, the render is the title line, then each label followed by its payload values verbatim and in reading order, the fixed lines 8 and 9, each ended by a newline, then line 10 or nothing |
| Prom9Base.RenderBaseLines | prompt_engine/plantillas/prom9_base.py:22-33 | Read line by line, the render is the title, lines 1 to 7 with the payload values verbatim and in order, the fixed lines 8 and 9, and line 10 exactly when the specialisation is truthy |
| Prom9Base.BaseFrame | prompt_engine/plantillas/prom9_base.py:20-33 | The base reads nothing but its nine keys and the specialisation: payloads agreeing on those render identically |
| Prom9Base.DefaultLine | prompt_engine/plantillas/it.py:14-15 | An extension line shows its default exactly when the key is absent or holds the default text itself; a present empty value is kept |
| ItTemplate.RenderIt | prompt_engine/plantillas/it.py:10-19 | Fails exactly when the base does, with the base's KeyError. Otherwise the base render is a prefix, and what follows starts with a blank line and `[Extensión IT]` |
| ItTemplate.ExtensionLines | prompt_engine/plantillas/it.py:13-17 | Five lines: the header, the stack and level lines, and the fixed considerations and request lines |
| ItTemplate.DefaultsOnlyWhenAbsent | prompt_engine/plantillas/it.py:14-15 | `No especificado` and `Senior` show exactly when their keys are absent, or hold that text |
| ItTemplate.IgnoresSpecialization | prompt_engine/plantillas/it.py:13-18 | The IT extension is the same whatever the payload holds under `especializacion_agricola` |
| ItTemplate.RenderItLines | prompt_engine/plantillas/it.py:12-19 | Read line by line: the base lines, one blank line, the five extension lines |
| VentasTemplate.RenderVentas | prompt_engine/plantillas/ventas.py:21-31 | Fails exactly when the base does. Otherwise the base render is a prefix, followed by a blank line and `[Extensión Ventas]` |
| VentasTemplate.AgriculturalLines | prompt_engine/plantillas/ventas.py:10-18 | The agricultural line is present exactly when the specialisation is truthy |
| VentasTemplate.ExtensionLines | prompt_engine/plantillas/ventas.py:25-30 | The header and the segment and value lines come first, then the optional agricultural line, and the KPI and request lines always close it |
| VentasTemplate.DefaultsOnlyWhenAbsent | prompt_engine/plantillas/ventas.py:26-27 | `General` and `No especificada` show exactly when their keys are absent, or hold that text |
| VentasTemplate.CropsListed | prompt_engine/plantillas/ventas.py:14 | A list is listed item by item; a string is iterated, each character an item of its own |
| VentasTemplate.WordListedByLetter | prompt_engine/plantillas/ventas.py:14 | A single comma-free word such as `vid` is one crop on line 10 of the base, while the sales line lists each of its letters as a crop |
| VentasTemplate.RenderVentasLines | prompt_engine/plantillas/ventas.py:23-31 | Read line by line: the base lines, one blank line, the extension lines |
| ContabilidadTemplate.RenderContabilidad | prompt_engine/plantillas/contabilidad.py:10-19 | Fails exactly when the base does. Otherwise the base render is a prefix, followed by a blank line and `[Extensión Contabilidad]` |
| ContabilidadTemplate.DefaultsOnlyWhenAbsent | prompt_engine/plantillas/contabilidad.py:14-15 | `PGC/NIIF según aplique` and `No especificado` show exactly when their keys are absent, or hold that text |
| ContabilidadTemplate.IgnoresSpecialization | prompt_engine/plantillas/contabilidad.py:13-18 | The specialisation has no effect on the accounting extension |
| ContabilidadTemplate.RenderContabilidadLines | prompt_engine/plantillas/contabilidad.py:12-19 | Read line by line: the base lines, one blank line, the extension lines |
| GestionTemplate.RenderGestion | prompt_engine/plantillas/gestion.py:21-31 | Fails exactly when the base does. Otherwise the base render is a prefix, followed by a blank line and `[Extensión Gestión]` |
| GestionTemplate.AgriculturalLines | prompt_engine/plantillas/gestion.py:10-18 | The agricultural-business line is present exactly when the specialisation is truthy |
| GestionTemplate.ExtensionLines | prompt_engine/plantillas/gestion.py:25-30 | The header and the area and horizon lines come first, then the optional agricultural line, and the considerations and request lines always close it |
| GestionTemplate.DefaultsOnlyWhenAbsent | prompt_engine/plantillas/gestion.py:26-27 | `No especificada` and `Corto/medio plazo` show exactly when their keys are absent, or hold that text |
| GestionTemplate.CropsListed | prompt_engine/plantillas/gestion.py:14 | A list is listed item by item; a string is iterated character by character |
| GestionTemplate.RenderGestionLines | prompt_engine/plantillas/gestion.py:23-31 | Read line by line: the base lines, one blank line, the extension lines |
| Motor.Route | prompt_engine/motor.py:51-83 | Gestión is chosen exactly when the normalised area is none of `it`, `ventas`, `contabilidad` |
| Motor.RouteIgnoresPadding | prompt_engine/motor.py:27-29 | Surrounding whitespace never changes the route |
| Motor.RouteIgnoresCase | prompt_engine/motor.py:27-29 | Areas equal up to ASCII case route alike |
| Motor.RouteName | prompt_engine/motor.py:51-83 | `it`, `ventas`, `contabilidad` and `gestion` each select their own template |
| Motor.RouteBlank | prompt_engine/motor.py:51-83 | A blank or empty area selects gestión |
| Motor.BuildPayload | prompt_engine/motor.py:39-83 | The payload always holds the nine base keys and never the agricultural specialisation |
| Motor.ProfileDefaults | prompt_engine/motor.py:40-41 | `Usuario` and `Profesional` apply only when the profile lacks `nombre` or `rol`; a present value, even empty, is kept |
| Motor.ContextDefaults | prompt_engine/motor.py:42-43 | `General` and `Asistente` apply only when the context lacks `nombre` or `rol_contextual` |
| Motor.TaskDefaults | prompt_engine/motor.py:44-48 | `objetivo`, `entradas`, `restricciones` and `formato_salida` default to `""` and `prioridad` to `Media`, each only when the task lacks the key; a present value, even empty, is kept |
| Motor.BaseKeysKept | prompt_engine/motor.py:52-83 | The area's extension keys never overwrite a base key |
| Motor.ItPayloadDefaults | prompt_engine/motor.py:52-58 | An IT payload holds `stack` and `nivel_tecnico`, with the engine defaults `Python 3.9+` and `Senior` only when the task lacks the key |
| Motor.VentasPayloadDefaults | prompt_engine/motor.py:60-66 | A sales payload holds `segmento` and `propuesta_valor`, defaulting to `B2B` and `""` only when the task lacks the key |
| Motor.ContabilidadPayloadDefaults | prompt_engine/motor.py:68-74 | An accounting payload holds `normativa` and `periodo`, defaulting to `PGC` and `""` only when the task lacks the key |
| Motor.GestionPayloadDefaults | prompt_engine/motor.py:76-82 | A management payload holds `area_operativa` and `horizonte`, defaulting to `Operaciones` and `Trimestral` only when the task lacks the key |
| Motor.ItDefaultUnreached | prompt_engine/motor.py:52-59 | Through the engine the IT stack line shows the template default only when the task itself holds that text, while the level line shows `Senior` whenever the task has no level, since both defaults agree |
| Motor.VentasDefaultUnreached | prompt_engine/motor.py:60-67 | Through the engine the segment and value lines show the template defaults only when the task holds that text |
| Motor.ContabilidadDefaultUnreached | prompt_engine/motor.py:68-75 | Through the engine the framework and period lines show the template defaults only when the task holds that text |
| Motor.GestionDefaultUnreached | prompt_engine/motor.py:76-83 | Through the engine the operating-area and horizon lines show the template defaults only when the task holds that text |
| Motor.NoSpecializationLines | prompt_engine/motor.py:39-83 | No generated prompt carries line 10 or an agricultural line |
| Motor.Render | prompt_engine/motor.py:59-83 | The routed template's render starts with the base render and so with the title line |
| Motor.GenerarPrompt | prompt_engine/motor.py:32-93 | Fails exactly when there are attachments and reading them fails, and then with that error |
| Motor.GenerarPromptLayout | prompt_engine/motor.py:85-93 | On success the prompt is the rendered template, then a blank line and the attachment section when there are attachments, then a blank line and the guidelines when the area is IT. No section is dropped and nothing is trimmed |
| Motor.AssembleLayout | prompt_engine/motor.py:93 | Joining sections none of which is whitespace-only puts each after the previous one with a blank line between |
| Motor.GenerarPromptEnds | prompt_engine/motor.py:85-93 | The rendered template opens every prompt, and an IT prompt always closes with the guidelines |
| Motor.PromptNotBlank | prompt_engine/motor.py:85-93 | The rendered template is never whitespace-only, so it is never dropped |
| Motor.AttachedOptional | prompt_engine/motor.py:87-88 | There is an attachment section exactly when there are attachments, and it is never whitespace-only |
| Motor.GuidelinesOptional | prompt_engine/motor.py:90-91 | Only IT prompts carry the guidelines, and they are never whitespace-only |
| Schemas.ToDict | prompt_engine/schemas.py:31-45 | Writes exactly the eleven stored keys |
| Schemas.Field | prompt_engine/schemas.py:51-59 | `data[key]` succeeds exactly when the key is present, with its value, and otherwise fails naming the key |
| Schemas.FromDictSucceeds | prompt_engine/schemas.py:47-62 | Reading succeeds exactly when the nine required keys are present; a failure names a required key that is missing |
| Schemas.FromDictFirstMissing | prompt_engine/schemas.py:50-59 | The KeyError names the first missing required key in declaration order |
| Schemas.FromToDict | prompt_engine/schemas.py:31-62 | Reading back what `to_dict` wrote gives the same task, whatever the clock says |
| Schemas.ToFromDict | prompt_engine/schemas.py:31-62 | A dictionary with exactly the stored keys reads and writes back to itself |
| Schemas.FromDictFields | prompt_engine/schemas.py:51-59 | Each required field is read from its own key |
| Schemas.FromDictDefaults | prompt_engine/schemas.py:28-29 | Without the two optional keys, a record reads as a freshly constructed task: empty prompt, creation time from the clock |
| Schemas.ClockOnlyWhenAbsent | prompt_engine/schemas.py:60-61 | A stored `created_at` wins; the clock only matters when it is absent |
| Storage.ReadJson | prompt_engine/storage.py:17-25 | A missing file or a JSON syntax error reads as the default, a decoded file as its content; any other exception fails with that error |
| Storage.ParseFromSucceeds | prompt_engine/storage.py:48 | Parsing the list succeeds exactly when every record has the required keys |
| Storage.ParseFromValues | prompt_engine/storage.py:48 | A successful parse yields one task per record, in stored order |
| Storage.ParseFromFailure | prompt_engine/storage.py:48 | The error is the one of the first record that cannot be parsed |
| Storage.ListarTareas | prompt_engine/storage.py:45-48 | A missing or undecodable history lists as empty; an exception from reading it fails the listing with that error |
| Storage.ListarInStoredOrder | prompt_engine/storage.py:45-48 | The listing is the stored records, each parsed, in stored order, with no sorting |
| Storage.GuardarTarea | prompt_engine/storage.py:51-55 | Saving fails exactly when listing the history fails, with that error |
| Storage.GuardarAppends | prompt_engine/storage.py:51-55 | After a save the history lists as the old listing followed by the new task, under any later clock |
| Storage.GuardarKeepsDuplicates | prompt_engine/storage.py:51-55 | There is no duplicate check: saving leaves one more task with the saved id |
| Storage.SobrescribirLists | prompt_engine/storage.py:58-60 | After overwriting, the history lists exactly the given tasks |
| Storage.ParseToDicts | prompt_engine/storage.py:55 | Stored tasks parse back to themselves, whatever the clock says |
| Storage.BuscarTareaPorId | prompt_engine/storage.py:63-68 | Fails exactly when listing fails. Otherwise it gives none exactly when no listed task has the id, and else the first listed task with it |
| PdfExport.EscapeLineIsPerChar | prompt_engine/pdf_export.py:35 | The chained replacements escape each character exactly once, so an entity introduced by a later step is never escaped again |
| PdfExport.UnescapeEscape | prompt_engine/pdf_export.py:35 | Escaping loses nothing: the line can be read back from its escaped form |
| PdfExport.EscapedIsPlain | prompt_engine/pdf_export.py:35 | An escaped line contains no `<` or `>`, and is empty only when the line is |
| PdfExport.CodeParagraphRecoversLine | prompt_engine/pdf_export.py:34-36 | Every code paragraph is non-empty markup-free text that gives its line back; an empty line is a single space |
| PdfExport.Story | prompt_engine/pdf_export.py:27-36 | The story has a title, a spacer, two items per metadata entry, a spacer, and one paragraph per prompt line |
| PdfExport.StoryOrder | prompt_engine/pdf_export.py:27-36 | The title opens the story, the metadata paragraphs follow in order, unescaped, then the code paragraphs of the prompt lines in order |
| UiForms.SplitItemsAreFields | prompt_engine/ui.py:271-272 | A list field is the stripped, non-blank pieces between commas and line breaks, in order |
| UiForms.RecordDialogSave | prompt_engine/ui.py:112-123 | A record is produced exactly when the collected rows hold a non-empty `nombre`, and it is the collected dictionary |
| UiForms.CollectedHasRowKey | prompt_engine/ui.py:113-116 | Every row with a non-blank key leaves that key in the record |
| UiForms.CollectedKeyFromRow | prompt_engine/ui.py:113-116 | Every key of the record is the non-blank stripped key of some row |
| UiForms.CollectedLastWins | prompt_engine/ui.py:113-116 | The value kept for a key is the stripped value of the last row with that key |
| UiForms.DerivedFields | prompt_engine/ui.py:772-774 | `entradas` copies the situation, `prioridad` is the urgency or `Media` and is never empty, and the output format is fixed |
| UiForms.CollectFormDataKeeps | prompt_engine/ui.py:765-779 | Every other field keeps its widget's value, the restrictions too unless a detailed context is given |
| UiForms.CollectFormDataContext | prompt_engine/ui.py:776-777 | A non-empty detailed context is appended to the restrictions after its lead, and the result stripped |
| UiForms.ContextClosesRestrictions | prompt_engine/ui.py:777 | A detailed context ending in a non-space always closes the restrictions, after its lead |
| UiForms.AreaFromSelector | prompt_engine/ui.py:766-770 | The selected template names the area unless a widget is itself called `area` |
| UiForms.ValidateRequired | prompt_engine/ui.py:781-787 | No warning exactly when the four required fields are filled in; otherwise a warning with the fixed lead |
| UiForms.MissingFields | prompt_engine/ui.py:783 | A field is listed exactly when it is required and empty |
| UiForms.AttachFiles | prompt_engine/ui.py:842-853 | The attached list grows by the reference list of accepted paths, and one error message is produced per unsupported path, in order |
| UiForms.AcceptedFresh | prompt_engine/ui.py:844-848 | Every path added was chosen, passed the type check, was not attached before, and is added once |
| UiForms.AcceptedCovers | prompt_engine/ui.py:844-848 | Every chosen path that passes the check ends up attached, already or now |
| UiForms.SelectedTemplate | prompt_engine/ui.py:671-676 | A template with the wanted name is chosen if there is one; otherwise the first template, else the fixed `gestion` default |
| UiForms.SelectedTemplateIsFirst | prompt_engine/ui.py:673-675 | Among several templates with the wanted name, the earliest wins |
| UiForms.Without | prompt_engine/ui.py:1074 | A record is kept exactly when its name is not the original one |
| UiForms.EditRecords | prompt_engine/ui.py:1073-1076 | The list is rewritten exactly when the name changed, and the edited record then goes last |
| UiForms.EditRecordsRename | prompt_engine/ui.py:1103-1106 | After a rename no earlier record keeps the old name, every other record is kept, and the list shrinks by the records dropped |

## Left out

- Reading files, `_leer_pdf` and `_leer_texto` (`attachments.py:33-60`), is an oracle. PDF extraction and the UTF-8/Latin-1 fallback are outside the model, and the oracle supplies any read error.
- JSON encoding, directory creation and disk writes in `storage.py` are out. A write is the decoded list the file will hold.
- `cargar_perfiles` and `cargar_contextos` are only `_read_json` with a default, and are covered by `Storage.ReadJson`.
- The wall clock `iso_timestamp` is out; the clock is a parameter.
- ReportLab rendering, the import check and the output directory of the PDF export are out. The story is a list of flowables.
- The desktop window is out: Tk layout, dialogs, the clipboard, the thread pool with `after` polling, and editing template `.py` files.
- The voice input, the dictation widget and the console `main.py` are out: I/O, threads and network calls.
- The storage helpers `ui.py` imports that are not part of this model are out: the upsert, delete and id helpers. The in-place update branch of a profile or context edit is shown as no result.
- Paths are strings, and `Path` equality is string equality. The base name is the part after the last `/`.
- `str.lower` is modelled on ASCII letters only. `str.strip` and `splitlines` use Python's whitespace and line-break sets.
- Dictionary values are strings or lists of strings. A list displays as its items, each wrapped in single quotes, joined by `, ` inside brackets. Unlike `repr`, no quote, backslash or control character inside an item is escaped, and an item holding `'` is not switched to double quotes.
- Stored records, profiles and contexts are maps from string to string.
- Storage.ReadJson: which exceptions arise is not modelled, only that they propagate. A read error, bytes that are not UTF-8, and a decoded top-level value that `listar_tareas` cannot iterate as records (`null`, a number, a non-empty object or string) are all the `Raises` case. An empty object or string iterates as an empty list and is the decoded empty list.
- Prom9Base.RenderBaseLines: the line-by-line view requires that no payload value contains a line break. `Prom9Base.RenderBaseText` states the text for every payload.
- ItTemplate.RenderItLines: same single-line requirement as the base.
- VentasTemplate.RenderVentasLines: same single-line requirement as the base.
- ContabilidadTemplate.RenderContabilidadLines: same single-line requirement as the base.
- GestionTemplate.RenderGestionLines: same single-line requirement as the base.
- Motor.BuildPayload: its contract names the keys that are always present and the one that never is, not the full key set. `Motor.BaseKeysKept`, the base default lemmas and the four area payload lemmas give the values.
- UiForms.ValidateRequired: the warning's list of missing fields is stated by membership, through `UiForms.MissingFields`, and not by its exact order.
- UiForms.ValidateRequired: it requires the four required widgets to exist, as the form always creates them.
- PdfExport.Story: the metadata is a sequence of pairs in the dictionary's insertion order.
