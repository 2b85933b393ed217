/** The field checks the create and update handlers run on a request body,
    and the texts of their 400 answers. */
module Validation {
  import opened Js

  const MissingFieldsText := "Erro: produto não criado. Faltando nome, preço ou descrição."

  /** A body field that a check can reject, in the order the checks run. */
  datatype Field = Nome | Preco | Descricao

  /** The message a failing check pushes onto the error list. */
  function Message(f: Field): string {
    match f
    case Nome => "'nome' deve ser uma string não vazia"
    case Preco => "'preco' deve ser um número não vazio"
    case Descricao => "'descricao' deve ser uma string não vazia"
  }

  function Messages(fs: seq<Field>): seq<string> {
    seq(|fs|, i requires 0 <= i < |fs| => Message(fs[i]))
  }

  function Rank(f: Field): nat {
    match f
    case Nome => 0
    case Preco => 1
    case Descricao => 2
  }

  /** Each check contributes at most once, in check order. */
  predicate InCheckOrder(fs: seq<Field>) {
    forall i, j :: 0 <= i < j < |fs| ==> Rank(fs[i]) < Rank(fs[j])
  }

  /** The error list the three checks build by pushing, in order, the field
      of each check that fails. */
  function Collect(nomeFails: bool, precoFails: bool, descricaoFails: bool): (fs: seq<Field>)
    ensures Nome in fs <==> nomeFails
    ensures Preco in fs <==> precoFails
    ensures Descricao in fs <==> descricaoFails
    ensures InCheckOrder(fs)
  {
    var e0: seq<Field> := [];
    var e1 := if nomeFails then e0 + [Nome] else e0;
    var e2 := if precoFails then e1 + [Preco] else e1;
    if descricaoFails then e2 + [Descricao] else e2
  }

  /** The fields create rejects once the missing-field gate has let all
      three through. Every failing check is reported, not only the first. */
  function CreateFieldErrors(nome: Value, preco: Value, descricao: Value): (fs: seq<Field>)
    requires !IsNullish(nome) && !IsNullish(descricao)
    ensures Nome in fs <==> EmptyNonString(nome)
    ensures Preco in fs <==> NotNumeric(preco)
    ensures Descricao in fs <==> EmptyNonString(descricao)
  {
    Collect(EmptyNonString(nome), NotNumeric(preco), EmptyNonString(descricao))
  }

  /** The fields update rejects: `nome` is always checked, `preco` and
      `descricao` only when they are truthy. */
  function UpdateFieldErrors(nome: Value, preco: Value, descricao: Value): (fs: seq<Field>)
    requires !IsNullish(nome)
    ensures Nome in fs <==> EmptyNonString(nome)
    ensures Preco in fs <==> Truthy(preco) && NotNumeric(preco)
    ensures Descricao in fs <==> Truthy(descricao) && EmptyNonString(descricao)
  {
    Collect(EmptyNonString(nome), Truthy(preco) && NotNumeric(preco),
            Truthy(descricao) && EmptyNonString(descricao))
  }

  /** Create's checks as the handler runs them, pushing onto `erro` the
      field of each check that fails. */
  method CollectCreateErrors(nome: Value, preco: Value, descricao: Value) returns (erro: seq<Field>)
    requires !IsNullish(nome) && !IsNullish(descricao)
    ensures erro == CreateFieldErrors(nome, preco, descricao)
  {
    erro := Push([], EmptyNonString(nome), Nome);
    erro := Push(erro, NotNumeric(preco), Preco);
    erro := Push(erro, EmptyNonString(descricao), Descricao);
  }

  /** Update's checks as the handler runs them. */
  method CollectUpdateErrors(nome: Value, preco: Value, descricao: Value) returns (erro: seq<Field>)
    requires !IsNullish(nome)
    ensures erro == UpdateFieldErrors(nome, preco, descricao)
  {
    erro := Push([], EmptyNonString(nome), Nome);
    erro := Push(erro, Truthy(preco) && NotNumeric(preco), Preco);
    erro := Push(erro, Truthy(descricao) && EmptyNonString(descricao), Descricao);
  }

  /** One check: `erro.push(f)` when it fails. */
  method Push(erro: seq<Field>, fails: bool, f: Field) returns (r: seq<Field>)
    ensures r == if fails then erro + [f] else erro
  {
    r := erro;
    if fails {
      r := r + [f];
    }
  }

  /** On a body that passes create's gate, update's checks say exactly what
      create's do. */
  lemma UpdateChecksAgreeWithCreate(nome: Value, preco: Value, descricao: Value)
    requires Truthy(nome) && Truthy(preco) && Truthy(descricao)
    ensures UpdateFieldErrors(nome, preco, descricao) == CreateFieldErrors(nome, preco, descricao)
  {
  }

  /** Strings for `nome` and `descricao` and a numeral for `preco` are
      accepted whatever their content, and so are a number or a boolean in
      place of `nome` or `descricao`: the checks combine "wrong type" and
      "empty" with a conjunction. */
  lemma PermissiveChecks(nome: Value, preco: string, descricao: Value)
    requires nome.Str? || nome.Number? || nome.Bool?
    requires descricao.Str? || descricao.Number? || descricao.Bool?
    requires preco != [] && IsDecimalDigit(preco[0])
    ensures CreateFieldErrors(nome, Str(preco), descricao) == []
    ensures UpdateFieldErrors(nome, Str(preco), descricao) == []
  {
    assert TrimStart(preco) == preco;
    assert NumericStart(preco);
    assert HasNumericPrefix(preco);
    assert !NotNumeric(Str(preco));
    assert !EmptyNonString(nome) && !EmptyNonString(descricao);
  }

  /** `xs.join(sep)`. */
  function Join(xs: seq<string>, sep: string): string {
    if xs == [] then ""
    else if |xs| == 1 then xs[0]
    else Join(xs[..|xs| - 1], sep) + sep + xs[|xs| - 1]
  }

  /** The body of a 400 answer for failed field checks. */
  function ErrorText(errs: seq<string>): string {
    "Erro: " + Join(errs, ", ")
  }

  /** Joining one more message appends the separator and that message. */
  lemma JoinSnoc(xs: seq<string>, x: string, sep: string)
    requires xs != []
    ensures Join(xs + [x], sep) == Join(xs, sep) + sep + x
  {
    assert (xs + [x])[..|xs + [x]| - 1] == xs;
  }

  /** One, two or three failing checks are reported by their messages
      joined with a comma, in the order given. */
  lemma ErrorTextShapes(a: string, b: string, c: string)
    ensures ErrorText([a]) == "Erro: " + a
    ensures ErrorText([a, b]) == "Erro: " + a + ", " + b
    ensures ErrorText([a, b, c]) == "Erro: " + a + ", " + b + ", " + c
  {
    JoinSnoc([a], b, ", ");
    assert [a] + [b] == [a, b];
    JoinSnoc([a, b], c, ", ");
    assert [a, b] + [c] == [a, b, c];
  }
}
