# Course management front end: a Dafny model

This project models the logic of a React front end for a course-management
REST API. The front end has three screens:

- students (`/alunos`);
- courses (`/cursos`);
- enrollments (`/matriculas`), together with the report of the students
  enrolled in a course.

It also models how the API base URL is chosen from the page's host name and
port. The client's `BASE_URL` is `GetApiUrl` applied once, to the page's
host name and port when the module loads.

The modules:

- `Entities` holds the resource shapes: `Aluno`, `Curso`, `Matricula` and the
  three request bodies (DTOs).
- `JsStrings` holds the JavaScript built-ins the screens rely on, with their
  specifications:
  - `String.prototype.trim`;
  - `s.split('T')[0]`;
  - `Number.prototype.toString` on integer ids;
  - `parseInt` with the default radix (leading whitespace, sign, `0x` prefix,
    longest digit prefix, NaN as `None`).
- `Http` describes what crosses the REST client:
  - response bodies, with JavaScript truthiness;
  - errors: no response, or a status and a body;
  - outcomes;
  - request descriptors (verb, path, body);
  - notifications;
  - the shared PUT-or-POST choice of the save handlers.
- `ApiConfig` holds `getApiUrl`.
- `AlunosPage`, `CursosPage` and `MatriculasPage` each hold one class per
  screen:
  - every `useState` hook is a field;
  - every handler is a method with `modifies` and a full postcondition;
  - the answer of each request the handler makes is a method parameter;
  - requests and notifications are appended to the `requests` and `toasts`
    fields;
  - the pure parts (DTO construction, error-message choice) are functions
    with their own lemmas.

## Model

| member | source | states |
|---|---|---|
| ApiConfig.GetApiUrl | src/services/api.ts:7-25 | Each of the three URLs is characterised exactly by the inputs that produce it: `http://localhost:8080/api` iff localhost:3000 or a loopback host on port 8080; `https://localhost:7238/api` iff a loopback host on another port, other than localhost:3000; production iff the host is not loopback |
| ApiConfig.GetApiUrlIsKnown | src/services/api.ts:7-25 | The resolver is total and always yields one of the three literal URLs |
| ApiConfig.PlainHttpExactly | src/services/api.ts:9-24 | The URL is plain `http://` iff the input is localhost:3000 or a loopback host on port 8080; every other input gets HTTPS |
| ApiConfig.DevServerUsesPort8080 | src/services/api.ts:9-11 | localhost:3000 talks to `http://localhost:8080/api` |
| ApiConfig.LoopbackPort8080 | src/services/api.ts:14-18 | Any loopback name on port 8080 talks to `http://localhost:8080/api` |
| ApiConfig.OtherLoopbackPort3000 | src/services/api.ts:9-20 | 127.0.0.1:3000 and [::1]:3000 get the local HTTPS URL, because the first rule tests only the name `localhost` |
| ApiConfig.LocalhostWithoutPort | src/__tests__/api.test.ts:13-16 | localhost with an empty port gets `https://localhost:7238/api`, as the test expects |
| ApiConfig.NonLoopbackIsProduction | src/services/api.ts:24 | Every non-loopback host reaches production, whatever the port |
| JsStrings.TrimStartSpec | src/pages/AlunosPage.tsx:47-48 | The start of trimming drops exactly a whitespace prefix and stops at the first other character |
| JsStrings.TrimEndSpec | src/pages/AlunosPage.tsx:47-48 | The end of trimming drops exactly a whitespace suffix and stops at the last other character |
| JsStrings.TrimSpec | src/pages/AlunosPage.tsx:47-48 | `trim()` yields a contiguous slice of its input, with only whitespace around it, that neither starts nor ends with whitespace |
| JsStrings.TrimUnique | src/pages/AlunosPage.tsx:47-48 | Any string with that property is the trim: the specification determines the result |
| JsStrings.TrimIdempotent | src/pages/AlunosPage.tsx:47-48 | Trimming twice is the same as trimming once |
| JsStrings.TrimKeepsTrimmed | src/pages/AlunosPage.tsx:47-48 | A value with no whitespace at either end is sent unchanged |
| JsStrings.DatePart | src/pages/AlunosPage.tsx:114 | `split('T')[0]` is a prefix of its input, contains no `T`, and is the whole input unless it stops just before a `T` |
| JsStrings.DatePartOfTimestamp | src/pages/AlunosPage.tsx:114 | For a timestamp "date" + "T" + "time", the birth date put in the form is "date" |
| JsStrings.DatePartOfDate | src/pages/AlunosPage.tsx:114 | A birth date with no time part is put in the form unchanged |
| JsStrings.NatToStringSpec | src/pages/MatriculasPage.tsx:220 | `toString()` of a non-negative id is a non-empty string of decimal digits, with no leading zero unless the id is 0, whose decimal value is the id |
| JsStrings.ParseIntOfToString | src/pages/MatriculasPage.tsx:65-68 | `parseInt` undoes `toString()` on every integer |
| JsStrings.ParseIntOfBlank | src/pages/MatriculasPage.tsx:66-67 | `parseInt` of an empty or blank value is NaN |
| Http.ItemPathParsesBack | src/pages/AlunosPage.tsx:53 | An item path `${collection}/${id}` is the collection, a `/`, and text that parses back to the id |
| Http.ItemPathInjective | src/pages/CursosPage.tsx:78 | Distinct ids give distinct item paths, so a PUT or DELETE reaches only the item it names |
| Http.SaveRequest | src/pages/CursosPage.tsx:46-58 | The verb is PUT iff an item is being edited, and POST iff none is. PUT goes to that item's path, POST to the collection, and the body is the same either way |
| AlunosPage.ToDtoSpec | src/pages/AlunosPage.tsx:46-50 | The student DTO carries the trims of the name and the e-mail, and the birth date exactly as entered |
| AlunosPage.SubmittedBodyAsTyped | src/__tests__/AlunosPage.test.tsx:106-110 | The form typed in the test produces exactly the body the test expects |
| AlunosPage.SubmittedBodyIgnoresPadding | src/pages/AlunosPage.tsx:46-50 | Whitespace typed around the name and e-mail does not change the body sent |
| AlunosPage.PaddingIgnored | src/pages/AlunosPage.tsx:47-48 | Surrounding a value with whitespace does not change its trim |
| AlunosPage.SaveErrorMessage | src/pages/AlunosPage.tsx:67-81 | A non-empty text body is shown verbatim; otherwise status 400 gets the under-age message; otherwise (including no response) the generic message. The message is never empty |
| AlunosPage.UnderageRefusalShown | src/__tests__/AlunosPage.test.tsx:114-139 | The server's 400 refusal text is the description of the error notification |
| AlunosPage.EmptyBodyCountsAsAbsent | src/pages/AlunosPage.tsx:70-74 | An empty text body is falsy: a 400 with it gets the under-age message, a 500 the generic one |
| AlunosPage.AlunosScreen.constructor | src/pages/AlunosPage.tsx:15-21 | The initial hook values; the screen invariant holds |
| AlunosPage.AlunosScreen.FetchAlunos | src/pages/AlunosPage.tsx:23-37 | GET /alunos is sent; the list is replaced on success and a notification is raised on failure; loading ends false; the form and dialogs are untouched |
| AlunosPage.AlunosScreen.HandleSubmit | src/pages/AlunosPage.tsx:43-82 | The request is the PUT-or-POST of the trimmed DTO. On success: the matching notification, the awaited reload, then a reset form (blank, nothing edited, closed). On failure: the error notification, and the form, the edited student, the dialog and the list are unchanged |
| AlunosPage.AlunosScreen.HandleDeleteClick | src/pages/AlunosPage.tsx:84-86 | The confirmation opens for that student |
| AlunosPage.AlunosScreen.HandleDeleteDialogChange | src/pages/AlunosPage.tsx:263 | The confirmation records the new open state and forgets the student |
| AlunosPage.AlunosScreen.HandleDeleteConfirm | src/pages/AlunosPage.tsx:88-107 | With no student selected nothing changes. Otherwise DELETE /alunos/{id} is sent, a reload follows success, the matching notification is raised, and the dialog ends closed with no student whatever the outcome |
| AlunosPage.AlunosScreen.HandleEdit | src/pages/AlunosPage.tsx:109-117 | The student becomes the edited one, the form gets name, e-mail and the date part of the birth date, and the form opens |
| AlunosPage.AlunosScreen.ResetForm | src/pages/AlunosPage.tsx:119-123 | Blank fields, nothing being edited, form closed |
| AlunosPage.AlunosScreen.HandleDialogChange | src/pages/AlunosPage.tsx:125-130 | Opening only shows the form and keeps its data and the edited student. Closing ends in the reset state. The invariant "a student is edited only in the open form" is kept |
| AlunosPage.AlunosScreen.OpenNewForm | src/pages/AlunosPage.tsx:143 | "Novo Aluno" shows the form |
| AlunosPage.AlunosScreen.EditNome | src/pages/AlunosPage.tsx:164 | Only the name field changes |
| AlunosPage.AlunosScreen.EditEmail | src/pages/AlunosPage.tsx:174 | Only the e-mail field changes |
| AlunosPage.AlunosScreen.EditDataNascimento | src/pages/AlunosPage.tsx:184 | Only the birth-date field changes |
| CursosPage.ToDto | src/pages/CursosPage.tsx:47 | The course body is the form exactly as typed, with no trimming |
| CursosPage.SubmittedBodyAsTyped | src/__tests__/CursosPage.test.tsx:89-94 | A new course is POSTed to /cursos with exactly the typed name and description |
| CursosPage.CursosScreen.constructor | src/pages/CursosPage.tsx:15-20 | The initial hook values; both screen invariants hold |
| CursosPage.CursosScreen.FetchCursos | src/pages/CursosPage.tsx:23-37 | GET /cursos is sent; the list is replaced on success and a notification is raised on failure; loading ends false |
| CursosPage.CursosScreen.HandleSubmit | src/pages/CursosPage.tsx:43-68 | The request is the PUT-or-POST of the form as typed. On success: the matching notification, the reload, then a reset form. On any failure: one fixed notification, whatever the status or body, and the form, the edited course, the dialog and the list are unchanged |
| CursosPage.CursosScreen.HandleDeleteClick | src/pages/CursosPage.tsx:70-72 | The confirmation opens for that course |
| CursosPage.CursosScreen.HandleDeleteDialogChange | src/pages/CursosPage.tsx:220 | The confirmation records the new open state and forgets the course |
| CursosPage.CursosScreen.HandleDeleteConfirm | src/pages/CursosPage.tsx:74-93 | With no course selected nothing changes. Otherwise DELETE /cursos/{id} is sent, a reload follows success, the matching notification is raised, and the dialog always ends closed with no course |
| CursosPage.CursosScreen.HandleEdit | src/pages/CursosPage.tsx:95-99 | The course becomes the edited one, the form gets its name and description, and the form opens |
| CursosPage.CursosScreen.ResetForm | src/pages/CursosPage.tsx:101-105 | Blank fields, nothing being edited, form closed |
| CursosPage.CursosScreen.SetShowForm | src/pages/CursosPage.tsx:120 | The form dialog's close handler as written: only the open state changes, so the edited course and the fields survive a close |
| CursosPage.CursosScreen.HandleDialogChange | src/pages/CursosPage.tsx:101-105 | The corrected close handler: opening keeps the form, closing ends in the reset state, and "a course is edited only in the open form" holds afterwards |
| CursosPage.CursosScreen.OpenNewForm | src/pages/CursosPage.tsx:114 | "Novo Curso" shows the form as it is |
| CursosPage.CursosScreen.EditNome | src/pages/CursosPage.tsx:135 | Only the name field changes |
| CursosPage.CursosScreen.EditDescricao | src/pages/CursosPage.tsx:144 | Only the description field changes |
| CursosPage.StaleEditAfterClose | src/pages/CursosPage.tsx:114-120 | Edit a course with non-empty fields, close through the dialog, "Novo Curso", submit: the request is a PUT over the previously edited course, not a POST |
| CursosPage.FreshCreateAfterClose | src/pages/CursosPage.tsx:101-105 | The same steps with the resetting close handler, then typing a non-empty name and description, POST exactly that new course to /cursos |
| MatriculasPage.SelectedIdsRoundTrip | src/pages/MatriculasPage.tsx:65-68 | The ids offered by the selects as `id.toString()` reach the server as the same ids |
| MatriculasPage.NothingSelectedIsNaN | src/pages/MatriculasPage.tsx:65-68 | Submitting with nothing selected sends NaN (JSON null) for both ids |
| MatriculasPage.EnrollErrorMessage | src/pages/MatriculasPage.tsx:76-83 | On 409: a truthy body of any type is shown as-is, else the duplicate message. On any other answer: a non-empty text body, else the generic message. The description is always truthy |
| MatriculasPage.EnrollMessageSource | src/pages/MatriculasPage.tsx:77-83 | The description is the server's body or one of the two fixed messages; a body that is not text is shown only on a 409 |
| MatriculasPage.ReportPathOfCourse | src/pages/MatriculasPage.tsx:113 | The report of a course chosen in the select is requested at that course's item path, and the id parses back from it |
| MatriculasPage.MatriculasScreen.constructor | src/pages/MatriculasPage.tsx:14-22 | The initial hook values; no report is outstanding |
| MatriculasPage.MatriculasScreen.FetchData | src/pages/MatriculasPage.tsx:25-56 | If students and courses both load, both lists are replaced and a failure of /matriculas alone gives an empty list with no notification. If either fails, nothing is replaced and one error notification is raised. Loading ends false |
| MatriculasPage.MatriculasScreen.HandleSubmit | src/pages/MatriculasPage.tsx:62-91 | POST /matriculas with the parsed ids. Success notifies and resets the form. Failure notifies with the chosen message and leaves the form unchanged |
| MatriculasPage.MatriculasScreen.ResetForm | src/pages/MatriculasPage.tsx:93-96 | Both selects cleared, form closed |
| MatriculasPage.MatriculasScreen.HandleDialogChange | src/pages/MatriculasPage.tsx:98-103 | Opening keeps the form; closing ends in the reset state |
| MatriculasPage.MatriculasScreen.OpenNewForm | src/pages/MatriculasPage.tsx:155 | "Nova Matrícula" shows the form |
| MatriculasPage.MatriculasScreen.SelectAluno | src/pages/MatriculasPage.tsx:208 | Only the student select changes |
| MatriculasPage.MatriculasScreen.SelectCurso | src/pages/MatriculasPage.tsx:232 | Only the course select changes |
| MatriculasPage.MatriculasScreen.HandleBuscarRelatorio | src/pages/MatriculasPage.tsx:105-133 | An empty id clears the report and sends nothing. Otherwise one GET of the course's report is sent, then: success stores the body (null as empty); a 404 empties the list with an informative notice; any other failure empties it with an error notice. No report is left loading |
| MatriculasPage.MatriculasScreen.SelectRelatorioCurso | src/pages/MatriculasPage.tsx:278-281 | The chosen course is remembered and the report handler runs for it: an empty choice clears the list with no request; otherwise one GET of its report, the list set by the outcome (body, null as empty, or empty on failure), and the 404 notice or the error notice on failure |

## Left out

- Rendering, layout and styling are not modelled. This includes:
  - the home page, the header and the routing;
  - the report header that looks the course up by its id text.
- The REST client is not modelled: the axios instance, the JSON content-type
  header and real HTTP. Each request is a descriptor, and its answer is a
  parameter of the handler.
- The browser's own form validation is not modelled: the `required`
  inputs of the student and course forms and the student form's e-mail
  input type. The submit handlers are modelled as called once that
  validation has let the submit through, so their contracts also cover
  inputs the browser would refuse (an empty name, say).
- The read of `window.location` is not modelled: `GetApiUrl` takes the host
  name and the port as parameters.
- Asynchrony is not modelled. Each handler runs as one atomic step given the
  answers to its requests. The reloads that the source does not await
  (`fetchCursos()` after a course save or delete, `fetchAlunos()` after a
  student delete) are taken as completing within the handler. Responses
  arriving after the screen is gone are not modelled.
- Notifications are appended to a log; their display and dismissal are not
  modelled.
- `formatDate` (`toLocaleDateString('pt-BR')`) is not modelled because it
  depends on the locale.
- The birth-date input's maximum (today's date) is not modelled because it
  depends on the clock.
- The error-logging `console.error` call is not modelled.
- JsStrings.ParseInt: not modelled:
  - the 53-bit precision of JavaScript numbers;
  - `Infinity` for digit strings too long to represent.
  Both cannot arise from ids written by `toString()`.
- JsStrings.IntToString: integer ids only. Ids with a fraction or an
  exponent form are not modelled.
- The unused `matriculas` list of the enrollment screen is stored but never
  read, as in the source.

## Findings

| source | as written | input that shows it | evidently intended | confidence | as-written member | corrected member |
|---|---|---|---|---|---|---|
| src/pages/CursosPage.tsx:120 | The course form dialog's `onOpenChange` is `setShowForm` itself. Closing the dialog by its own close control keeps `editingCurso` and the fields, so "Novo Curso" (line 114) reopens the old course's edit form, and submitting it PUTs over that course | `handleEdit(c)` for a course with non-empty fields, close the dialog, "Novo Curso", submit: PUT `/cursos/{c.id}` instead of POST `/cursos` | Reset on close, as the student and enrollment screens' `handleDialogChange` do | medium, not executed | CursosPage.StaleEditAfterClose (with CursosPage.CursosScreen.SetShowForm) | CursosPage.FreshCreateAfterClose (with CursosPage.CursosScreen.HandleDialogChange) |
