/** The resource shapes exchanged with the REST API (src/interfaces/interfaces.ts,
    repeated in src/services/api.ts). The optional nested `matriculas`, `aluno`,
    `curso` and `idade` members are never read by the screens and are omitted. */
module Entities {

  datatype Option<+T> = None | Some(value: T)

  /** A course as listed by GET /cursos. */
  datatype Curso = Curso(id: int, nome: string, descricao: string)

  /** A student as listed by GET /alunos; `dataNascimento` is the server's
      ISO text, possibly with a time part after a 'T'. */
  datatype Aluno = Aluno(id: int, nome: string, email: string, dataNascimento: string)

  /** An enrollment as listed by GET /matriculas. */
  datatype Matricula = Matricula(alunoId: int, cursoId: int, dataMatricula: string)

  /** Body of POST /alunos and PUT /alunos/{id}. */
  datatype AlunoDto = AlunoDto(nome: string, email: string, dataNascimento: string)

  /** Body of POST /cursos and PUT /cursos/{id}. */
  datatype CursoDto = CursoDto(nome: string, descricao: string)

  /** Body of POST /matriculas. Each id is a JavaScript number produced by
      parseInt: `None` stands for NaN, which JSON serialises as null. */
  datatype MatricularDto = MatricularDto(alunoId: Option<int>, cursoId: Option<int>)
}
