/** The student screen (src/pages/AlunosPage.tsx). Each useState hook is a
    field of AlunosScreen and each handler a method; the answer of every
    request the handler awaits is a parameter. Requests and notifications are
    appended to the `requests` and `toasts` logs. */
module AlunosPage {
  import opened Entities
  import opened JsStrings
  import opened Http

  /** The three text inputs of the form. */
  datatype AlunoForm = AlunoForm(nome: string, email: string, dataNascimento: string)

  const BlankForm := AlunoForm("", "", "")

  /** The delete confirmation: whether it is open and which student it is about. */
  datatype DeleteDialog = DeleteDialog(open: bool, aluno: Option<Aluno>)

  const ClosedDialog := DeleteDialog(false, None)

  const Collection := "/alunos"
  const ListRequest := Request(Get, Collection, NoPayload)

  const LoadErrorToast := Toast("Erro ao carregar alunos",
    Text("Não foi possível carregar a lista de alunos. Tente novamente."), Destructive)
  const UpdatedToast := Toast("Aluno atualizado!",
    Text("As informações do aluno foram atualizadas com sucesso."), Default)
  const CreatedToast := Toast("Aluno cadastrado!",
    Text("O novo aluno foi adicionado ao sistema."), Default)
  const DeletedToast := Toast("Aluno excluído!",
    Text("O aluno foi removido do sistema com sucesso."), Default)
  const DeleteErrorToast := Toast("Erro ao excluir aluno",
    Text("Não foi possível excluir o aluno. Verifique se não há matrículas associadas."), Destructive)

  const GenericSaveMessage := "Não foi possível salvar o aluno. Verifique os dados e tente novamente."
  const UnderageMessage := "Dados inválidos. Verifique se o aluno é maior de idade."

  /** The body sent by handleSubmit: name and e-mail without surrounding
      whitespace, birth date exactly as entered. */
  function ToDto(f: AlunoForm): AlunoDto {
    AlunoDto(Trim(f.nome), Trim(f.email), f.dataNascimento)
  }

  /** The DTO carries name and e-mail without surrounding whitespace and
      the birth date exactly as entered. */
  lemma ToDtoSpec(f: AlunoForm)
    ensures IsTrimOf(ToDto(f).nome, f.nome) && IsTrimOf(ToDto(f).email, f.email)
    ensures ToDto(f).dataNascimento == f.dataNascimento
  {
    TrimSpec(f.nome);
    TrimSpec(f.email);
  }

  /** The body the test suite expects for a form typed without extra spaces. */
  lemma SubmittedBodyAsTyped()
    ensures ToDto(AlunoForm("Pedro Costa", "pedro@email.com", "1995-03-10"))
         == AlunoDto("Pedro Costa", "pedro@email.com", "1995-03-10")
  {
    TrimKeepsTrimmed("Pedro Costa");
    TrimKeepsTrimmed("pedro@email.com");
  }

  /** Padding typed around the name and e-mail never reaches the server. */
  lemma SubmittedBodyIgnoresPadding(f: AlunoForm, lead: string, trail: string)
    requires AllWhitespace(lead) && AllWhitespace(trail)
    ensures ToDto(AlunoForm(lead + f.nome + trail, lead + f.email + trail, f.dataNascimento)) == ToDto(f)
  {
    PaddingIgnored(f.nome, lead, trail);
    PaddingIgnored(f.email, lead, trail);
  }

  lemma PaddingIgnored(s: string, lead: string, trail: string)
    requires AllWhitespace(lead) && AllWhitespace(trail)
    ensures Trim(lead + s + trail) == Trim(s)
  {
    var r := Trim(s);
    TrimSpec(s);
    var k: nat :| TrimmedAt(r, s, k);
    var p := lead + s + trail;
    assert p[|lead| + k..|lead| + k + |r|] == s[k..k + |r|];
    assert p[..|lead| + k] == lead + s[..k];
    assert p[|lead| + k + |r|..] == s[k + |r|..] + trail;
    assert TrimmedAt(r, p, |lead| + k);
    TrimUnique(r, p);
  }

  /** The description of the failure notification of handleSubmit: a
      non-empty text body is shown verbatim; otherwise status 400 gets the
      age message; anything else gets the generic message. */
  function SaveErrorMessage(e: HttpError): (m: string)
    ensures e.ErrorResponse? && IsMessage(e.data) ==> m == e.data.s
    ensures e.ErrorResponse? && !IsMessage(e.data) && e.status == 400 ==> m == UnderageMessage
    ensures e.NoResponse? || (!IsMessage(e.data) && e.status != 400) ==> m == GenericSaveMessage
    ensures m != ""
  {
    if e.ErrorResponse? && IsMessage(e.data) then e.data.s
    else if e.ErrorResponse? && e.status == 400 then UnderageMessage
    else GenericSaveMessage
  }

  function SaveErrorToast(e: HttpError): Toast {
    Toast("Erro ao salvar aluno", Text(SaveErrorMessage(e)), Destructive)
  }

  /** The server's refusal of an under-age student is what the user reads. */
  lemma UnderageRefusalShown()
    ensures SaveErrorToast(ErrorResponse(400, Text("Aluno deve ser maior de idade para se matricular")))
         == Toast("Erro ao salvar aluno", Text("Aluno deve ser maior de idade para se matricular"), Destructive)
  {
  }

  /** An empty text body is falsy, so a 400 with it gets the age message. */
  lemma EmptyBodyCountsAsAbsent()
    ensures SaveErrorMessage(ErrorResponse(400, Text(""))) == UnderageMessage
    ensures SaveErrorMessage(ErrorResponse(500, Text(""))) == GenericSaveMessage
  {
  }

  function AlunoId(a: Aluno): int { a.id }

  class AlunosScreen {
    var alunos: seq<Aluno>
    var loading: bool
    var showForm: bool
    var editingAluno: Option<Aluno>
    var formData: AlunoForm
    var deleteDialog: DeleteDialog
    /** Every request issued, in order. */
    var requests: seq<Request>
    /** Every notification raised, in order. */
    var toasts: seq<Toast>

    /** A student is edited only in the open form. */
    ghost predicate EditingOnlyInOpenForm()
      reads this
    {
      editingAluno.Some? ==> showForm
    }

    /** The delete dialog names a student only while it is open. */
    ghost predicate DeleteTargetOnlyWhileOpen()
      reads this
    {
      deleteDialog.aluno.Some? ==> deleteDialog.open
    }

    ghost predicate Valid()
      reads this
    {
      EditingOnlyInOpenForm() && DeleteTargetOnlyWhileOpen()
    }

    /** The initial values of the hooks. */
    constructor ()
      ensures Valid()
      ensures alunos == [] && loading && !showForm && editingAluno == None
      ensures formData == BlankForm && deleteDialog == ClosedDialog
      ensures requests == [] && toasts == []
    {
      alunos := [];
      loading := true;
      showForm := false;
      editingAluno := None;
      formData := BlankForm;
      deleteDialog := ClosedDialog;
      requests := [];
      toasts := [];
    }

    /** fetchAlunos: GET /alunos; the list is replaced on success, a
        notification is raised on failure, and loading ends false either way. */
    method FetchAlunos(outcome: Outcome<seq<Aluno>>)
      requires Valid()
      modifies this
      ensures Valid()
      ensures requests == old(requests) + [ListRequest]
      ensures alunos == (if outcome.Ok? then outcome.data else old(alunos))
      ensures toasts == old(toasts) + (if outcome.Ok? then [] else [LoadErrorToast])
      ensures !loading
      ensures showForm == old(showForm) && editingAluno == old(editingAluno)
      ensures formData == old(formData) && deleteDialog == old(deleteDialog)
    {
      loading := true;
      requests := requests + [ListRequest];
      if outcome.Ok? {
        alunos := outcome.data;
      } else {
        toasts := toasts + [LoadErrorToast];
      }
      loading := false;
    }

    /** handleSubmit: sends the DTO (PUT when editing, POST otherwise). On
        success it notifies, reloads the list (awaited) and resets the form;
        on failure it notifies and leaves the form, the edited student and
        the dialog exactly as they were. */
    method HandleSubmit(outcome: Outcome<Body>, refresh: Outcome<seq<Aluno>>)
      requires Valid()
      modifies this
      ensures Valid()
      ensures deleteDialog == old(deleteDialog)
      ensures outcome.Ok? ==>
        requests == old(requests) + [SaveRequest(Collection, IdOf(old(editingAluno), AlunoId), AlunoBody(ToDto(old(formData))))] + [ListRequest] &&
        toasts == old(toasts) + [if old(editingAluno).Some? then UpdatedToast else CreatedToast] +
                  (if refresh.Ok? then [] else [LoadErrorToast]) &&
        alunos == (if refresh.Ok? then refresh.data else old(alunos)) && !loading &&
        formData == BlankForm && editingAluno == None && !showForm
      ensures outcome.Err? ==>
        requests == old(requests) + [SaveRequest(Collection, IdOf(old(editingAluno), AlunoId), AlunoBody(ToDto(old(formData))))] &&
        toasts == old(toasts) + [SaveErrorToast(outcome.error)] &&
        alunos == old(alunos) && loading == old(loading) &&
        formData == old(formData) && editingAluno == old(editingAluno) && showForm == old(showForm)
    {
      var dto := ToDto(formData);
      requests := requests + [SaveRequest(Collection, IdOf(editingAluno, AlunoId), AlunoBody(dto))];
      if outcome.Ok? {
        toasts := toasts + [if editingAluno.Some? then UpdatedToast else CreatedToast];
        FetchAlunos(refresh);
        ResetForm();
      } else {
        toasts := toasts + [SaveErrorToast(outcome.error)];
      }
    }

    /** handleDeleteClick: opens the confirmation for this student. */
    method HandleDeleteClick(aluno: Aluno)
      requires Valid()
      modifies this`deleteDialog
      ensures Valid()
      ensures deleteDialog == DeleteDialog(true, Some(aluno))
    {
      deleteDialog := DeleteDialog(true, Some(aluno));
    }

    /** The confirmation's onOpenChange: records the new open state and
        forgets the student. */
    method HandleDeleteDialogChange(open: bool)
      requires Valid()
      modifies this`deleteDialog
      ensures Valid()
      ensures deleteDialog == DeleteDialog(open, None)
    {
      deleteDialog := DeleteDialog(open, None);
    }

    /** handleDeleteConfirm: with no student selected nothing happens;
        otherwise DELETE /alunos/{id} is sent, success reloads the list,
        and the dialog ends closed whatever the outcome. */
    method HandleDeleteConfirm(outcome: Outcome<Body>, refresh: Outcome<seq<Aluno>>)
      requires Valid()
      modifies this
      ensures Valid()
      ensures showForm == old(showForm) && editingAluno == old(editingAluno) && formData == old(formData)
      ensures old(deleteDialog).aluno.None? ==>
        deleteDialog == old(deleteDialog) && requests == old(requests) && toasts == old(toasts) &&
        alunos == old(alunos) && loading == old(loading)
      ensures old(deleteDialog).aluno.Some? ==>
        deleteDialog == ClosedDialog &&
        requests == old(requests) + [Request(Delete, ItemPath(Collection, old(deleteDialog).aluno.value.id), NoPayload)] +
                    (if outcome.Ok? then [ListRequest] else []) &&
        toasts == (if outcome.Ok? then old(toasts) + [DeletedToast] + (if refresh.Ok? then [] else [LoadErrorToast])
                   else old(toasts) + [DeleteErrorToast]) &&
        alunos == (if outcome.Ok? && refresh.Ok? then refresh.data else old(alunos)) &&
        loading == (if outcome.Ok? then false else old(loading))
    {
      if deleteDialog.aluno.None? {
        return;
      }
      requests := requests + [Request(Delete, ItemPath(Collection, deleteDialog.aluno.value.id), NoPayload)];
      if outcome.Ok? {
        toasts := toasts + [DeletedToast];
        FetchAlunos(refresh);
      } else {
        toasts := toasts + [DeleteErrorToast];
      }
      deleteDialog := ClosedDialog;
    }

    /** handleEdit: loads the student into the form, the birth date cut at
        its first 'T', and opens the form. */
    method HandleEdit(aluno: Aluno)
      requires Valid()
      modifies this`editingAluno, this`formData, this`showForm
      ensures Valid()
      ensures editingAluno == Some(aluno) && showForm
      ensures formData == AlunoForm(aluno.nome, aluno.email, DatePart(aluno.dataNascimento))
    {
      editingAluno := Some(aluno);
      formData := AlunoForm(aluno.nome, aluno.email, DatePart(aluno.dataNascimento));
      showForm := true;
    }

    /** resetForm: blank fields, nothing being edited, form closed. */
    method ResetForm()
      requires DeleteTargetOnlyWhileOpen()
      modifies this`editingAluno, this`formData, this`showForm
      ensures Valid()
      ensures formData == BlankForm && editingAluno == None && !showForm
    {
      formData := BlankForm;
      editingAluno := None;
      showForm := false;
    }

    /** handleDialogChange: opening only shows the form; closing resets it. */
    method HandleDialogChange(open: bool)
      requires Valid()
      modifies this`editingAluno, this`formData, this`showForm
      ensures Valid()
      ensures open ==> showForm && formData == old(formData) && editingAluno == old(editingAluno)
      ensures !open ==> formData == BlankForm && editingAluno == None && !showForm
    {
      showForm := open;
      if !open {
        ResetForm();
      }
    }

    /** The "Novo Aluno" button: shows the form as it is. */
    method OpenNewForm()
      requires Valid()
      modifies this`showForm
      ensures Valid()
      ensures showForm
    {
      showForm := true;
    }

    /** The onChange handlers of the three inputs: each replaces one field. */
    method EditNome(value: string)
      requires Valid()
      modifies this`formData
      ensures Valid()
      ensures formData == old(formData).(nome := value)
    {
      formData := formData.(nome := value);
    }

    method EditEmail(value: string)
      requires Valid()
      modifies this`formData
      ensures Valid()
      ensures formData == old(formData).(email := value)
    {
      formData := formData.(email := value);
    }

    method EditDataNascimento(value: string)
      requires Valid()
      modifies this`formData
      ensures Valid()
      ensures formData == old(formData).(dataNascimento := value)
    {
      formData := formData.(dataNascimento := value);
    }
  }
}
