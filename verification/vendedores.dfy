/**
 * The salesperson register page (`models/vendedores.py`): an ordered list
 * of `{"nome": nome}` records kept for the session, mirrored to
 * `vendedores.xlsx` after every change.
 */
module Vendedores {
  import opened Wrappers
  import opened Labels
  import opened Selection
  import opened Planilha

  /** A row of the register; its identity is its position. */
  datatype Salesperson = Salesperson(nome: string)

  /** The `nome` column of a list of records. */
  function Names(rs: seq<Salesperson>): seq<string> {
    seq(|rs|, i requires 0 <= i < |rs| => rs[i].nome)
  }

  /**
   * The sheet that `pd.DataFrame(vendedores).to_excel(...)` writes: one
   * `nome` column, and no column at all for an empty list.
   */
  function ToSheet(rs: seq<Salesperson>): Sheet {
    if rs == [] then Sheet(map[]) else Sheet(map["nome" := Names(rs)])
  }

  /**
   * The session's first load, `pd.read_excel(...).to_dict(orient="records")`,
   * with an empty list when the file is missing or cannot be read.
   */
  function LoadRegister(d: Disk<Sheet>): (r: Loaded<seq<Salesperson>>)
    ensures d.Absent? ==> r == Loaded([], None)
    ensures d.Unreadable? ==> r == Loaded([], Some(ReadFailed(d.reason)))
    ensures d.Present? && "nome" in d.contents.columns ==> Names(r.records) == d.contents.columns["nome"]
  {
    match d
    case Absent => Loaded([], None)
    case Unreadable(reason) => Loaded([], Some(ReadFailed(reason)))
    case Present(sheet) =>
      if "nome" in sheet.columns then
        var col := sheet.columns["nome"];
        Loaded(seq(|col|, i requires 0 <= i < |col| => Salesperson(col[i])), None)
      else Loaded([], None)
  }

  /** Reloading what a flush wrote gives back the same records in the same order. */
  lemma RegisterRoundTrip(rs: seq<Salesperson>)
    ensures LoadRegister(Present(ToSheet(rs))) == Loaded(rs, None)
  {
    if rs != [] {
      assert LoadRegister(Present(ToSheet(rs))).records == rs;
    }
  }

  /** The multiselect label `f"{i} - {v['nome']}"`. */
  function SalespersonLabel(i: nat, p: Salesperson): string {
    IndexLabel(i, p.nome)
  }

  /** The options offered for deletion, one per record in list order. */
  function SalespersonOptions(rs: seq<Salesperson>): (options: seq<string>)
    ensures |options| == |rs|
  {
    seq(|rs|, i requires 0 <= i < |rs| => SalespersonLabel(i, rs[i]))
  }

  /** Every option parses back to the position of its record, whatever the name holds. */
  lemma SalespersonOptionsNumbered(rs: seq<Salesperson>)
    ensures Numbered(SalespersonOptions(rs))
  {
    forall p | 0 <= p < |rs| ensures ParseIndex(SalespersonOptions(rs)[p]) == Some(p) {
      LabelRoundTrip(p, rs[p].nome);
    }
  }

  /** The register as the page holds it in the session. */
  class Register {
    var vendedores: seq<Salesperson>
    var arquivo: Disk<Sheet>

    /** The first render of a session: load the file, or start empty. */
    constructor (arquivo: Disk<Sheet>)
      ensures this.arquivo == arquivo
      ensures vendedores == LoadRegister(arquivo).records
    {
      this.arquivo := arquivo;
      vendedores := LoadRegister(arquivo).records;
    }

    /** `salvar_vendedores_excel`: overwrite the file with the whole list. */
    method Flush()
      modifies this`arquivo
      ensures arquivo == Present(ToSheet(vendedores))
      ensures LoadRegister(arquivo).records == vendedores
    {
      arquivo := Present(ToSheet(vendedores));
      RegisterRoundTrip(vendedores);
    }

    /**
     * Submitting the form: a non-empty name is appended and saved; an
     * empty one changes nothing. Names need not be unique.
     */
    method Add(nome: string) returns (added: bool)
      modifies this`vendedores, this`arquivo
      ensures added <==> nome != []
      ensures added ==> vendedores == old(vendedores) + [Salesperson(nome)]
      ensures added ==> arquivo == Present(ToSheet(vendedores))
      ensures !added ==> vendedores == old(vendedores) && arquivo == old(arquivo)
    {
      added := nome != [];
      if added {
        vendedores := vendedores + [Salesperson(nome)];
        Flush();
      }
    }

    /**
     * "Apagar Selecionados": with nothing selected, nothing changes and
     * nothing is saved; otherwise the records whose labels were selected
     * go, the rest keep their order, and the list is saved.
     */
    method DeleteSelected(selected: seq<string>) returns (outcome: DeleteOutcome)
      requires forall l :: l in selected ==> l in SalespersonOptions(vendedores)
      modifies this`vendedores, this`arquivo
      ensures outcome == NothingSelected <==> selected == []
      ensures selected == [] ==> vendedores == old(vendedores) && arquivo == old(arquivo)
      ensures selected != [] ==>
        vendedores == KeepUnselected(old(vendedores), SalespersonOptions(old(vendedores)), selected)
      ensures selected != [] ==> arquivo == Present(ToSheet(vendedores))
    {
      if selected == [] {
        outcome := NothingSelected;
        return;
      }
      var options := SalespersonOptions(vendedores);
      SalespersonOptionsNumbered(vendedores);
      DeleteBySelection(vendedores, options, selected);
      var indices := ParseIndices(selected).value;
      vendedores := Remove(vendedores, indices);
      Flush();
      outcome := Deleted;
    }
  }
}
