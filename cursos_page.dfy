/** The course screen (src/pages/CursosPage.tsx), modelled like the student
    screen: each useState hook is a field of CursosScreen, each handler a
    method, and the answer of every request a parameter. */
module CursosPage {
  import opened Entities
  import opened JsStrings
  import opened Http

  /** The two text inputs of the form. */
  datatype CursoForm = CursoForm(nome: string, descricao: string)

  const BlankForm := CursoForm("", "")

  /** The delete confirmation: whether it is open and which course it is about. */
  datatype DeleteDialog = DeleteDialog(open: bool, curso: Option<Curso>)

  const ClosedDialog := DeleteDialog(false, None)

  const Collection := "/cursos"
  const ListRequest := Request(Get, Collection, NoPayload)

  const LoadErrorToast := Toast("Erro ao carregar cursos",
    Text("Não foi possível carregar a lista de cursos. Tente novamente."), Destructive)
  const UpdatedToast := Toast("Curso atualizado!",
    Text("As informações do curso foram atualizadas com sucesso."), Default)
  const CreatedToast := Toast("Curso criado!",
    Text("O novo curso foi adicionado ao sistema."), Default)
  const SaveErrorToast := Toast("Erro ao salvar curso",
    Text("Não foi possível salvar o curso. Verifique os dados e tente novamente."), Destructive)
  const DeletedToast := Toast("Curso excluído!",
    Text("O curso foi removido do sistema com sucesso."), Default)
  const DeleteErrorToast := Toast("Erro ao excluir curso",
    Text("Não foi possível excluir o curso. Verifique se não há matrículas associadas."), Destructive)

  /** The body of the save request is the form exactly as typed. */
  function ToDto(f: CursoForm): (dto: CursoDto)
    ensures dto.nome == f.nome && dto.descricao == f.descricao
  {
    CursoDto(f.nome, f.descricao)
  }

  /** The body the test suite expects: what was typed, padding included. */
  lemma SubmittedBodyAsTyped(nome: string, descricao: string)
    ensures SaveRequest(Collection, None, CursoBody(ToDto(CursoForm(nome, descricao))))
         == Request(Post, "/cursos", CursoBody(CursoDto(nome, descricao)))
  {
  }

  function CursoId(c: Curso): int { c.id }

  class CursosScreen {
    var cursos: seq<Curso>
    var loading: bool
    var showForm: bool
    var editingCurso: Option<Curso>
    var formData: CursoForm
    var deleteDialog: DeleteDialog
    /** Every request issued, in order. */
    var requests: seq<Request>
    /** Every notification raised, in order. */
    var toasts: seq<Toast>

    /** A course is edited only in the open form. The dialog's own close
        handler does not keep this (see SetShowForm). */
    ghost predicate EditingOnlyInOpenForm()
      reads this
    {
      editingCurso.Some? ==> showForm
    }

    /** The delete dialog names a course only while it is open. */
    ghost predicate Valid()
      reads this
    {
      deleteDialog.curso.Some? ==> deleteDialog.open
    }

    /** The initial values of the hooks. */
    constructor ()
      ensures Valid() && EditingOnlyInOpenForm()
      ensures cursos == [] && loading && !showForm && editingCurso == None
      ensures formData == BlankForm && deleteDialog == ClosedDialog
      ensures requests == [] && toasts == []
    {
      cursos := [];
      loading := true;
      showForm := false;
      editingCurso := None;
      formData := BlankForm;
      deleteDialog := ClosedDialog;
      requests := [];
      toasts := [];
    }

    /** fetchCursos: GET /cursos; the list is replaced on success, a
        notification is raised on failure, and loading ends false either way. */
    method FetchCursos(outcome: Outcome<seq<Curso>>)
      requires Valid()
      modifies this`loading, this`requests, this`cursos, this`toasts
      ensures Valid()
      ensures requests == old(requests) + [ListRequest]
      ensures cursos == (if outcome.Ok? then outcome.data else old(cursos))
      ensures toasts == old(toasts) + (if outcome.Ok? then [] else [LoadErrorToast])
      ensures !loading
    {
      loading := true;
      requests := requests + [ListRequest];
      if outcome.Ok? {
        cursos := outcome.data;
      } else {
        toasts := toasts + [LoadErrorToast];
      }
      loading := false;
    }

    /** handleSubmit: sends the form as typed (PUT when editing, POST
        otherwise). On success it notifies, reloads the list and resets the
        form; any failure gets one fixed notification and leaves the form,
        the edited course and the dialog as they were. */
    method HandleSubmit(outcome: Outcome<Body>, refresh: Outcome<seq<Curso>>)
      requires Valid()
      modifies this
      ensures Valid()
      ensures deleteDialog == old(deleteDialog)
      ensures outcome.Ok? ==>
        requests == old(requests) + [SaveRequest(Collection, IdOf(old(editingCurso), CursoId), CursoBody(ToDto(old(formData))))] + [ListRequest] &&
        toasts == old(toasts) + [if old(editingCurso).Some? then UpdatedToast else CreatedToast] +
                  (if refresh.Ok? then [] else [LoadErrorToast]) &&
        cursos == (if refresh.Ok? then refresh.data else old(cursos)) && !loading &&
        formData == BlankForm && editingCurso == None && !showForm
      ensures outcome.Err? ==>
        requests == old(requests) + [SaveRequest(Collection, IdOf(old(editingCurso), CursoId), CursoBody(ToDto(old(formData))))] &&
        toasts == old(toasts) + [SaveErrorToast] &&
        cursos == old(cursos) && loading == old(loading) &&
        formData == old(formData) && editingCurso == old(editingCurso) && showForm == old(showForm)
    {
      requests := requests + [SaveRequest(Collection, IdOf(editingCurso, CursoId), CursoBody(ToDto(formData)))];
      if outcome.Ok? {
        toasts := toasts + [if editingCurso.Some? then UpdatedToast else CreatedToast];
        FetchCursos(refresh);
        ResetForm();
      } else {
        toasts := toasts + [SaveErrorToast];
      }
    }

    /** handleDeleteClick: opens the confirmation for this course. */
    method HandleDeleteClick(curso: Curso)
      requires Valid()
      modifies this`deleteDialog
      ensures Valid()
      ensures deleteDialog == DeleteDialog(true, Some(curso))
    {
      deleteDialog := DeleteDialog(true, Some(curso));
    }

    /** The confirmation's onOpenChange: records the new open state and
        forgets the course. */
    method HandleDeleteDialogChange(open: bool)
      requires Valid()
      modifies this`deleteDialog
      ensures Valid()
      ensures deleteDialog == DeleteDialog(open, None)
    {
      deleteDialog := DeleteDialog(open, None);
    }

    /** handleDeleteConfirm: with no course selected nothing happens;
        otherwise DELETE /cursos/{id} is sent, success reloads the list,
        and the dialog ends closed whatever the outcome. */
    method HandleDeleteConfirm(outcome: Outcome<Body>, refresh: Outcome<seq<Curso>>)
      requires Valid()
      modifies this
      ensures Valid()
      ensures showForm == old(showForm) && editingCurso == old(editingCurso) && formData == old(formData)
      ensures old(deleteDialog).curso.None? ==>
        deleteDialog == old(deleteDialog) && requests == old(requests) && toasts == old(toasts) &&
        cursos == old(cursos) && loading == old(loading)
      ensures old(deleteDialog).curso.Some? ==>
        deleteDialog == ClosedDialog &&
        requests == old(requests) + [Request(Delete, ItemPath(Collection, old(deleteDialog).curso.value.id), NoPayload)] +
                    (if outcome.Ok? then [ListRequest] else []) &&
        toasts == (if outcome.Ok? then old(toasts) + [DeletedToast] + (if refresh.Ok? then [] else [LoadErrorToast])
                   else old(toasts) + [DeleteErrorToast]) &&
        cursos == (if outcome.Ok? && refresh.Ok? then refresh.data else old(cursos)) &&
        loading == (if outcome.Ok? then false else old(loading))
    {
      if deleteDialog.curso.None? {
        return;
      }
      requests := requests + [Request(Delete, ItemPath(Collection, deleteDialog.curso.value.id), NoPayload)];
      if outcome.Ok? {
        toasts := toasts + [DeletedToast];
        FetchCursos(refresh);
      } else {
        toasts := toasts + [DeleteErrorToast];
      }
      deleteDialog := ClosedDialog;
    }

    /** handleEdit: loads the course into the form and opens it. */
    method HandleEdit(curso: Curso)
      requires Valid()
      modifies this`editingCurso, this`formData, this`showForm
      ensures Valid() && EditingOnlyInOpenForm()
      ensures editingCurso == Some(curso) && showForm
      ensures formData == CursoForm(curso.nome, curso.descricao)
    {
      editingCurso := Some(curso);
      formData := CursoForm(curso.nome, curso.descricao);
      showForm := true;
    }

    /** resetForm (also the "Cancelar" button): blank fields, nothing being
        edited, form closed. */
    method ResetForm()
      requires Valid()
      modifies this`editingCurso, this`formData, this`showForm
      ensures Valid() && EditingOnlyInOpenForm()
      ensures formData == BlankForm && editingCurso == None && !showForm
    {
      formData := BlankForm;
      editingCurso := None;
      showForm := false;
    }

    /** The form dialog's onOpenChange as written: it only records the open
        state, so closing the dialog keeps the fields and the course being
        edited. */
    method SetShowForm(open: bool)
      requires Valid()
      modifies this`showForm
      ensures Valid()
      ensures showForm == open
    {
      showForm := open;
    }

    /** The close handler the screen evidently intends, as on the student and
        enrollment screens: closing resets the form, so an edit never outlives
        its dialog. */
    method HandleDialogChange(open: bool)
      requires Valid()
      modifies this`editingCurso, this`formData, this`showForm
      ensures Valid() && EditingOnlyInOpenForm()
      ensures open ==> showForm && formData == old(formData) && editingCurso == old(editingCurso)
      ensures !open ==> formData == BlankForm && editingCurso == None && !showForm
    {
      showForm := open;
      if !open {
        ResetForm();
      }
    }

    /** The "Novo Curso" button: shows the form as it is. */
    method OpenNewForm()
      requires Valid()
      modifies this`showForm
      ensures Valid()
      ensures showForm
    {
      showForm := true;
    }

    /** The onChange handlers of the two inputs: each replaces one field. */
    method EditNome(value: string)
      requires Valid()
      modifies this`formData
      ensures Valid()
      ensures formData == old(formData).(nome := value)
    {
      formData := formData.(nome := value);
    }

    method EditDescricao(value: string)
      requires Valid()
      modifies this`formData
      ensures Valid()
      ensures formData == old(formData).(descricao := value)
    {
      formData := formData.(descricao := value);
    }
  }

  /** As written: edit a course, close the dialog with its own close control,
      press "Novo Curso" and submit. The request sent is a PUT that overwrites
      the course that was being edited, not a POST of a new one. The fields
      the stale form shows are non-empty, so its required inputs let the
      submit through. */
  method StaleEditAfterClose(curso: Curso) returns (req: Request)
    requires curso.nome != "" && curso.descricao != ""
    ensures req == Request(Put, ItemPath(Collection, curso.id), CursoBody(CursoDto(curso.nome, curso.descricao)))
  {
    var screen := new CursosScreen();
    screen.HandleEdit(curso);
    screen.SetShowForm(false);
    screen.OpenNewForm();
    screen.HandleSubmit(Err(NoResponse), Err(NoResponse));
    req := screen.requests[0];
  }

  /** Corrected: the same steps with the resetting close handler give a blank
      new-course form; once a name and a description are typed into it (its
      inputs are required), the submit POSTs that new course to the
      collection and leaves the edited course alone. */
  method FreshCreateAfterClose(curso: Curso, nome: string, descricao: string) returns (req: Request)
    requires nome != "" && descricao != ""
    ensures req == Request(Post, Collection, CursoBody(CursoDto(nome, descricao)))
  {
    var screen := new CursosScreen();
    screen.HandleEdit(curso);
    screen.HandleDialogChange(false);
    screen.OpenNewForm();
    screen.EditNome(nome);
    screen.EditDescricao(descricao);
    screen.HandleSubmit(Err(NoResponse), Err(NoResponse));
    req := screen.requests[0];
  }
}
