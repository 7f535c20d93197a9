/** The enrollment screen (src/pages/MatriculasPage.tsx): the enrollment form,
    whose selects carry ids as text, and the per-course report of enrolled
    students. Each useState hook is a field of MatriculasScreen, each handler
    a method, and the answer of every request a parameter. */
module MatriculasPage {
  import opened Entities
  import opened JsStrings
  import opened Http

  /** The two selects of the form; each holds `id.toString()` of the chosen
      student or course, or "" while nothing is chosen. */
  datatype MatriculaForm = MatriculaForm(alunoId: string, cursoId: string)

  const BlankForm := MatriculaForm("", "")

  const AlunosRequest := Request(Get, "/alunos", NoPayload)
  const CursosRequest := Request(Get, "/cursos", NoPayload)
  const MatriculasRequest := Request(Get, "/matriculas", NoPayload)
  const ReportPrefix := "/relatorios/alunos-por-curso/"

  const LoadErrorToast := Toast("Erro ao carregar dados",
    Text("Não foi possível carregar as informações. Tente novamente."), Destructive)
  const EnrolledToast := Toast("Matrícula realizada!",
    Text("A matrícula foi criada com sucesso."), Default)
  const NoStudentsToast := Toast("Nenhum aluno encontrado",
    Text("Este curso ainda não possui alunos matriculados."), Default)
  const ReportErrorToast := Toast("Erro ao buscar relatório",
    Text("Não foi possível carregar os alunos matriculados."), Destructive)

  const GenericEnrollMessage := "Não foi possível criar a matrícula."
  const DuplicateMessage := "Este aluno já está matriculado neste curso."

  /** The body of POST /matriculas: both select values through parseInt. */
  function ToDto(f: MatriculaForm): MatricularDto {
    MatricularDto(ParseInt(f.alunoId), ParseInt(f.cursoId))
  }

  /** Ids offered by the selects as `id.toString()` reach the server unchanged. */
  lemma SelectedIdsRoundTrip(aluno: Aluno, curso: Curso)
    ensures ToDto(MatriculaForm(IntToString(aluno.id), IntToString(curso.id)))
         == MatricularDto(Some(aluno.id), Some(curso.id))
  {
    ParseIntOfToString(aluno.id);
    ParseIntOfToString(curso.id);
  }

  /** Submitting with nothing selected sends NaN (JSON null) for both ids. */
  lemma NothingSelectedIsNaN()
    ensures ToDto(BlankForm) == MatricularDto(None, None)
  {
    ParseIntOfBlank("");
  }

  /** The description of the failure notification of handleSubmit. A 409
      shows its body whenever the body is truthy, whatever its type, and the
      duplicate message otherwise; any other answer shows a non-empty text
      body, and the generic message when there is none. */
  function EnrollErrorMessage(e: HttpError): (m: Body)
    ensures e.ErrorResponse? && e.status == 409 && Truthy(e.data) ==> m == e.data
    ensures e.ErrorResponse? && e.status == 409 && !Truthy(e.data) ==> m == Text(DuplicateMessage)
    ensures e.ErrorResponse? && e.status != 409 && IsMessage(e.data) ==> m == e.data
    ensures e.NoResponse? || (e.status != 409 && !IsMessage(e.data)) ==> m == Text(GenericEnrollMessage)
    ensures Truthy(m)
  {
    if e.ErrorResponse? && e.status == 409 then
      (if Truthy(e.data) then e.data else Text(DuplicateMessage))
    else if e.ErrorResponse? && IsMessage(e.data) then e.data
    else Text(GenericEnrollMessage)
  }

  /** The notification shows either the server's body or one of the two
      fixed messages, and a body that is not text is shown only on a 409. */
  lemma EnrollMessageSource(e: HttpError)
    ensures EnrollErrorMessage(e) in {Text(DuplicateMessage), Text(GenericEnrollMessage)} ||
            (e.ErrorResponse? && EnrollErrorMessage(e) == e.data)
    ensures !EnrollErrorMessage(e).Text? ==> e.ErrorResponse? && e.status == 409
  {
  }

  function EnrollErrorToast(e: HttpError): Toast {
    Toast("Erro ao realizar matrícula", EnrollErrorMessage(e), Destructive)
  }

  /** Path of the report of one course; the select passes `id.toString()`. */
  function ReportPath(cursoId: string): string {
    ReportPrefix + cursoId
  }

  /** The report of a course chosen in its select is the item path of that
      course's id under the report collection, and the id reads back from it. */
  lemma ReportPathOfCourse(curso: Curso)
    ensures ReportPath(IntToString(curso.id)) == ItemPath("/relatorios/alunos-por-curso", curso.id)
    ensures ParseInt(ReportPath(IntToString(curso.id))[|ReportPrefix|..]) == Some(curso.id)
  {
    ItemPathParsesBack("/relatorios/alunos-por-curso", curso.id);
  }

  class MatriculasScreen {
    var matriculas: seq<Matricula>
    var alunos: seq<Aluno>
    var cursos: seq<Curso>
    var loading: bool
    var showForm: bool
    var formData: MatriculaForm
    var selectedCursoRelatorio: string
    var alunosMatriculados: seq<Aluno>
    var loadingRelatorio: bool
    /** Every request issued, in order. */
    var requests: seq<Request>
    /** Every notification raised, in order. */
    var toasts: seq<Toast>

    /** No report request is outstanding between handlers. */
    ghost predicate Valid()
      reads this
    {
      !loadingRelatorio
    }

    /** The initial values of the hooks. */
    constructor ()
      ensures Valid()
      ensures matriculas == [] && alunos == [] && cursos == [] && loading && !showForm
      ensures formData == BlankForm && selectedCursoRelatorio == "" && alunosMatriculados == []
      ensures requests == [] && toasts == []
    {
      matriculas := [];
      alunos := [];
      cursos := [];
      loading := true;
      showForm := false;
      formData := BlankForm;
      selectedCursoRelatorio := "";
      alunosMatriculados := [];
      loadingRelatorio := false;
      requests := [];
      toasts := [];
    }

    /** fetchData: GET /alunos and GET /cursos together. When both succeed
        the two lists are replaced and GET /matriculas follows, whose failure
        alone is absorbed into an empty list; when either fails nothing is
        replaced and one notification is raised. Loading ends false. */
    method FetchData(alunosRes: Outcome<seq<Aluno>>, cursosRes: Outcome<seq<Curso>>,
                     matriculasRes: Outcome<seq<Matricula>>)
      requires Valid()
      modifies this`loading, this`alunos, this`cursos, this`matriculas, this`requests, this`toasts
      ensures Valid()
      ensures !loading
      ensures alunosRes.Ok? && cursosRes.Ok? ==>
        alunos == alunosRes.data && cursos == cursosRes.data &&
        matriculas == (if matriculasRes.Ok? then matriculasRes.data else []) &&
        requests == old(requests) + [AlunosRequest, CursosRequest, MatriculasRequest] &&
        toasts == old(toasts)
      ensures !(alunosRes.Ok? && cursosRes.Ok?) ==>
        alunos == old(alunos) && cursos == old(cursos) && matriculas == old(matriculas) &&
        requests == old(requests) + [AlunosRequest, CursosRequest] &&
        toasts == old(toasts) + [LoadErrorToast]
    {
      loading := true;
      requests := requests + [AlunosRequest, CursosRequest];
      if alunosRes.Ok? && cursosRes.Ok? {
        alunos := alunosRes.data;
        cursos := cursosRes.data;
        requests := requests + [MatriculasRequest];
        if matriculasRes.Ok? {
          matriculas := matriculasRes.data;
        } else {
          matriculas := [];
        }
      } else {
        toasts := toasts + [LoadErrorToast];
      }
      loading := false;
    }

    /** handleSubmit: POST /matriculas with both ids through parseInt. On
        success it notifies and resets the form; on failure it notifies with
        the chosen message and leaves the form as it was. */
    method HandleSubmit(outcome: Outcome<Body>)
      requires Valid()
      modifies this`requests, this`toasts, this`formData, this`showForm
      ensures Valid()
      ensures requests == old(requests) + [Request(Post, "/matriculas", MatriculaBody(ToDto(old(formData))))]
      ensures outcome.Ok? ==>
        toasts == old(toasts) + [EnrolledToast] && formData == BlankForm && !showForm
      ensures outcome.Err? ==>
        toasts == old(toasts) + [EnrollErrorToast(outcome.error)] &&
        formData == old(formData) && showForm == old(showForm)
    {
      var dto := ToDto(formData);
      requests := requests + [Request(Post, "/matriculas", MatriculaBody(dto))];
      if outcome.Ok? {
        toasts := toasts + [EnrolledToast];
        ResetForm();
      } else {
        toasts := toasts + [EnrollErrorToast(outcome.error)];
      }
    }

    /** resetForm (also the "Cancelar" button): both selects cleared, form closed. */
    method ResetForm()
      requires Valid()
      modifies this`formData, this`showForm
      ensures Valid()
      ensures formData == BlankForm && !showForm
    {
      formData := BlankForm;
      showForm := false;
    }

    /** handleDialogChange: opening only shows the form; closing resets it. */
    method HandleDialogChange(open: bool)
      requires Valid()
      modifies this`formData, this`showForm
      ensures Valid()
      ensures open ==> showForm && formData == old(formData)
      ensures !open ==> formData == BlankForm && !showForm
    {
      showForm := open;
      if !open {
        ResetForm();
      }
    }

    /** The "Nova Matrícula" button: shows the form as it is. */
    method OpenNewForm()
      requires Valid()
      modifies this`showForm
      ensures Valid()
      ensures showForm
    {
      showForm := true;
    }

    /** The onValueChange handlers of the two selects: each replaces one field. */
    method SelectAluno(value: string)
      requires Valid()
      modifies this`formData
      ensures Valid()
      ensures formData == old(formData).(alunoId := value)
    {
      formData := formData.(alunoId := value);
    }

    method SelectCurso(value: string)
      requires Valid()
      modifies this`formData
      ensures Valid()
      ensures formData == old(formData).(cursoId := value)
    {
      formData := formData.(cursoId := value);
    }

    /** handleBuscarRelatorio: an empty course id clears the report without a
        request. Otherwise the report of that course is requested: a body is
        stored (null counts as no student); a 404 empties the list with an
        informative notice; any other failure empties it with an error
        notice. No request is left outstanding afterwards. The answer is
        `None` when the body is null. */
    method HandleBuscarRelatorio(cursoId: string, outcome: Outcome<Option<seq<Aluno>>>)
      requires Valid()
      modifies this`alunosMatriculados, this`loadingRelatorio, this`requests, this`toasts
      ensures Valid()
      ensures cursoId == "" ==>
        alunosMatriculados == [] && requests == old(requests) && toasts == old(toasts)
      ensures cursoId != "" ==>
        requests == old(requests) + [Request(Get, ReportPath(cursoId), NoPayload)] &&
        alunosMatriculados == (if outcome.Ok? && outcome.data.Some? then outcome.data.value else [])
      ensures cursoId != "" && outcome.Ok? ==> toasts == old(toasts)
      ensures cursoId != "" && outcome.Err? ==>
        toasts == old(toasts) + [if outcome.error.ErrorResponse? && outcome.error.status == 404
                                 then NoStudentsToast else ReportErrorToast]
    {
      if cursoId == "" {
        alunosMatriculados := [];
        return;
      }
      loadingRelatorio := true;
      requests := requests + [Request(Get, ReportPath(cursoId), NoPayload)];
      if outcome.Ok? {
        alunosMatriculados := if outcome.data.Some? then outcome.data.value else [];
      } else if outcome.error.ErrorResponse? && outcome.error.status == 404 {
        alunosMatriculados := [];
        toasts := toasts + [NoStudentsToast];
      } else {
        toasts := toasts + [ReportErrorToast];
        alunosMatriculados := [];
      }
      loadingRelatorio := false;
    }

    /** The report select's onValueChange: remembers the course, then runs
        the report for it. */
    method SelectRelatorioCurso(value: string, outcome: Outcome<Option<seq<Aluno>>>)
      requires Valid()
      modifies this`selectedCursoRelatorio, this`alunosMatriculados, this`loadingRelatorio, this`requests, this`toasts
      ensures Valid()
      ensures selectedCursoRelatorio == value
      ensures value == "" ==>
        alunosMatriculados == [] && requests == old(requests) && toasts == old(toasts)
      ensures value != "" ==>
        requests == old(requests) + [Request(Get, ReportPath(value), NoPayload)] &&
        alunosMatriculados == (if outcome.Ok? && outcome.data.Some? then outcome.data.value else [])
      ensures value != "" && outcome.Ok? ==> toasts == old(toasts)
      ensures value != "" && outcome.Err? ==>
        toasts == old(toasts) + [if outcome.error.ErrorResponse? && outcome.error.status == 404
                                 then NoStudentsToast else ReportErrorToast]
    {
      selectedCursoRelatorio := value;
      HandleBuscarRelatorio(value, outcome);
    }
  }
}
