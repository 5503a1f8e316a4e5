/**
 * The sales page (`models/vendas.py`): session-only clients, the sales
 * list mirrored to `compras.xlsx`, the rules that build a sale from the
 * form, the totals shown under the history, and the salesperson names read
 * from `vendedores.xlsx` for the form. Amounts are integer cents.
 */
module Vendas {
  import opened Wrappers
  import opened Labels
  import opened Selection
  import opened Planilha
  import Vendedores

  /** The two choices of "Forma de Pagamento": "À Vista" and "A Prazo". */
  datatype Payment = AVista | APrazo

  /** A client as the form records it; kept for the session only. */
  datatype Client = Client(nome: string, telefone: string)

  /** A row of the sales list, with amounts in cents. */
  datatype Sale = Sale(
    vendedor: string,
    cliente: string,
    produto: string,
    valorTotal: int,
    pagamento: Payment,
    valorPago: int,
    valorAReceber: int)

  /**
   * What the sale form hands over on submit. `vendedor` is None when there
   * was no salesperson to choose; `valorPago` is the "Valor já pago" field,
   * which stays 0 unless "A Prazo" is chosen.
   */
  datatype SaleForm = SaleForm(
    cliente: string,
    produto: string,
    valor: int,
    vendedor: Option<string>,
    pagamento: Payment,
    valorPago: int)

  /** Why a submitted sale was or was not recorded. */
  datatype SaleOutcome = NoClients | MissingClientOrProduct | MissingSalesperson | Recorded

  /** The three totals written under the history. */
  datatype Summary = Summary(total: int, totalPago: int, aReceber: int)

  /**
   * The bounds the number inputs enforce: the total is at least 0 and the
   * amount already paid lies between 0 and the total.
   */
  predicate WidgetBounds(f: SaleForm) {
    f.valor >= 0 && (f.pagamento == APrazo ==> 0 <= f.valorPago <= f.valor)
  }

  /**
   * The payment split of a sale: paid and receivable are non-negative and
   * add up to the total, and a sale paid in full has nothing to receive.
   */
  predicate SplitOk(v: Sale) {
    0 <= v.valorPago && 0 <= v.valorAReceber &&
    v.valorPago + v.valorAReceber == v.valorTotal &&
    (v.pagamento == AVista ==> v.valorAReceber == 0)
  }

  /**
   * The presence checks of the sale form: the form is shown only once a
   * client exists, then client and product must be filled in, then a
   * salesperson must have been chosen.
   */
  function Admission(clientes: seq<Client>, f: SaleForm): (r: SaleOutcome)
    ensures r == NoClients <==> clientes == []
    ensures r == MissingClientOrProduct <==> clientes != [] && (f.cliente == [] || f.produto == [])
    ensures r == MissingSalesperson <==> clientes != [] && f.cliente != [] && f.produto != [] && f.vendedor.None?
    ensures r == Recorded <==> clientes != [] && f.cliente != [] && f.produto != [] && f.vendedor.Some?
  {
    if clientes == [] then NoClients
    else if f.cliente == [] || f.produto == [] then MissingClientOrProduct
    else if f.vendedor.None? then MissingSalesperson
    else Recorded
  }

  /**
   * The record appended for an admitted form. Paid in full: everything
   * is paid and nothing is to be received. In instalments: what is left to
   * receive is the total less what was paid. Within the input bounds the
   * split is always consistent.
   */
  function BuildSale(f: SaleForm): (v: Sale)
    requires f.vendedor.Some?
    ensures v.vendedor == f.vendedor.value && v.cliente == f.cliente && v.produto == f.produto
    ensures v.valorTotal == f.valor && v.pagamento == f.pagamento
    ensures f.pagamento == AVista ==> v.valorPago == v.valorTotal && v.valorAReceber == 0
    ensures f.pagamento == APrazo ==> v.valorPago == f.valorPago && v.valorAReceber == v.valorTotal - v.valorPago
    ensures WidgetBounds(f) ==> SplitOk(v)
  {
    Sale(
      f.vendedor.value,
      f.cliente,
      f.produto,
      f.valor,
      f.pagamento,
      if f.pagamento == AVista then f.valor else f.valorPago,
      if f.pagamento == AVista then 0 else f.valor - f.valorPago)
  }

  /** `df_vendas["valor_total"].sum()`. */
  function SumTotal(vs: seq<Sale>): int {
    if vs == [] then 0 else SumTotal(vs[..|vs| - 1]) + vs[|vs| - 1].valorTotal
  }

  /** `df_vendas["valor_pago"].sum()`. */
  function SumPago(vs: seq<Sale>): int {
    if vs == [] then 0 else SumPago(vs[..|vs| - 1]) + vs[|vs| - 1].valorPago
  }

  /** The sum of the stored `valor_a_receber` column, which the page does not use. */
  function SumAReceber(vs: seq<Sale>): int {
    if vs == [] then 0 else SumAReceber(vs[..|vs| - 1]) + vs[|vs| - 1].valorAReceber
  }

  /**
   * The totals: sold, received, and receivable, the last one computed from
   * the first two rather than from the stored column.
   */
  function Summarize(vs: seq<Sale>): (r: Summary)
    ensures vs == [] ==> r == Summary(0, 0, 0)
  {
    var total := SumTotal(vs);
    var pago := SumPago(vs);
    Summary(total, pago, total - pago)
  }

  /**
   * When every row keeps the payment split, the receivable computed from
   * the sums equals the sum of the stored receivables, and the totals are
   * ordered 0 <= received <= sold.
   */
  lemma {:induction false} SummaryAgreesWithRows(vs: seq<Sale>)
    requires forall k :: 0 <= k < |vs| ==> SplitOk(vs[k])
    ensures Summarize(vs).aReceber == SumAReceber(vs)
    ensures 0 <= Summarize(vs).totalPago <= Summarize(vs).total
  {
    if vs != [] {
      SummaryAgreesWithRows(vs[..|vs| - 1]);
      assert SplitOk(vs[|vs| - 1]);
    }
  }

  /** Recording a sale adds its amounts to each total. */
  lemma SummarizeAppend(vs: seq<Sale>, v: Sale)
    ensures Summarize(vs + [v]).total == Summarize(vs).total + v.valorTotal
    ensures Summarize(vs + [v]).totalPago == Summarize(vs).totalPago + v.valorPago
    ensures Summarize(vs + [v]).aReceber == Summarize(vs).aReceber + (v.valorTotal - v.valorPago)
  {
    assert (vs + [v])[..|vs|] == vs;
  }

  /**
   * Two sales, one of 100.00 paid in full and one of 50.00 with 20.00
   * paid: 150.00 sold, 120.00 received, 30.00 to receive.
   */
  lemma SummaryExample(a: Sale, b: Sale)
    requires a.valorTotal == 10000 && a.valorPago == 10000
    requires b.valorTotal == 5000 && b.valorPago == 2000
    ensures Summarize([a, b]) == Summary(15000, 12000, 3000)
  {
    SummarizeAppend([a], b);
    SummarizeAppend([], a);
    assert [] + [a] == [a];
    assert [a] + [b] == [a, b];
  }

  /** A single sale paid in full shows its amount as sold and received, and nothing to receive. */
  lemma FullPaymentSummary(f: SaleForm)
    requires f.vendedor.Some? && f.pagamento == AVista
    ensures Summarize([BuildSale(f)]) == Summary(f.valor, f.valor, 0)
  {
    var v := BuildSale(f);
    SummarizeAppend([], v);
    assert [] + [v] == [v];
  }

  /**
   * `carregar_lista_vendedores`: no names when the file is missing, cannot
   * be read, or has no `nome` column (the last two with a message);
   * otherwise the `nome` column in file order.
   */
  function SalespersonNames(d: Disk<Sheet>): (r: Loaded<seq<string>>)
    ensures !d.Present? || "nome" !in d.contents.columns ==> r.records == []
    ensures d.Present? && "nome" in d.contents.columns ==> r == Loaded(d.contents.columns["nome"], None)
    ensures d.Absent? ==> r.notice == None
    ensures d.Unreadable? ==> r.notice == Some(ReadFailed(d.reason))
    ensures d.Present? && "nome" !in d.contents.columns ==> r.notice == Some(MissingNomeColumn)
  {
    match d
    case Absent => Loaded([], None)
    case Unreadable(reason) => Loaded([], Some(ReadFailed(reason)))
    case Present(sheet) =>
      if "nome" in sheet.columns then Loaded(sheet.columns["nome"], None)
      else Loaded([], Some(MissingNomeColumn))
  }

  /**
   * The names the sale form offers are those the register last saved, in
   * its order. A register saved empty writes a sheet with no columns, so
   * the sales page then warns that the `nome` column is missing.
   */
  lemma NamesAfterRegisterFlush(rs: seq<Vendedores.Salesperson>)
    ensures SalespersonNames(Present(Vendedores.ToSheet(rs))).records == Vendedores.Names(rs)
    ensures SalespersonNames(Present(Vendedores.ToSheet(rs))).notice.None? <==> rs != []
  {
  }

  /** The session's first load of the sales file, with an empty list when it is missing or unreadable. */
  function LoadSales(d: Disk<seq<Sale>>): (r: Loaded<seq<Sale>>)
    ensures d.Present? ==> r == Loaded(d.contents, None)
    ensures d.Absent? ==> r == Loaded([], None)
    ensures d.Unreadable? ==> r == Loaded([], Some(ReadFailed(d.reason)))
  {
    match d
    case Absent => Loaded([], None)
    case Unreadable(reason) => Loaded([], Some(ReadFailed(reason)))
    case Present(rows) => Loaded(rows, None)
  }

  /** An amount in cents as reais with two decimals. */
  function AmountText(cents: int): string {
    var magnitude: nat := if cents < 0 then -cents else cents;
    var fraction := magnitude % 100;
    (if cents < 0 then "-" else "") + NatToString(magnitude / 100) + "." +
    [DigitChar(fraction / 10), DigitChar(fraction % 10)]
  }

  /** The multiselect label `f"{i} - {cliente} | {produto} | R$ {valor_total}"`. */
  function SaleLabel(i: nat, v: Sale): string {
    IndexLabel(i, v.cliente + " | " + v.produto + " | R$ " + AmountText(v.valorTotal))
  }

  /** The options offered for deletion, one per sale in list order. */
  function SaleOptions(vs: seq<Sale>): (options: seq<string>)
    ensures |options| == |vs|
  {
    seq(|vs|, i requires 0 <= i < |vs| => SaleLabel(i, vs[i]))
  }

  /** Every option parses back to the position of its sale, whatever client or product text it holds. */
  lemma SaleOptionsNumbered(vs: seq<Sale>)
    ensures Numbered(SaleOptions(vs))
  {
    forall p | 0 <= p < |vs| ensures ParseIndex(SaleOptions(vs)[p]) == Some(p) {
      var v := vs[p];
      LabelRoundTrip(p, v.cliente + " | " + v.produto + " | R$ " + AmountText(v.valorTotal));
    }
  }

  /** The state the sales page keeps for the session. */
  class SalesPage {
    var clientes: seq<Client>
    var vendas: seq<Sale>
    var arquivo: Disk<seq<Sale>>

    /** Every stored sale keeps the payment split (rows loaded from the file are not checked). */
    predicate Consistent()
      reads this
    {
      forall k :: 0 <= k < |vendas| ==> SplitOk(vendas[k])
    }

    /** The first render of a session: no clients, and the sales file loaded or an empty list. */
    constructor (arquivo: Disk<seq<Sale>>)
      ensures this.arquivo == arquivo && clientes == []
      ensures vendas == LoadSales(arquivo).records
    {
      this.arquivo := arquivo;
      clientes := [];
      vendas := LoadSales(arquivo).records;
    }

    /** `salvar_vendas_excel`: overwrite the file with the whole list. */
    method Flush()
      modifies this`arquivo
      ensures arquivo == Present(vendas)
      ensures LoadSales(arquivo).records == vendas
    {
      arquivo := Present(vendas);
    }

    /** "Adicionar Cliente": a client with a name is appended; nothing is saved. */
    method AddClient(nome: string, telefone: string) returns (added: bool)
      modifies this`clientes
      ensures added <==> nome != []
      ensures clientes == if added then old(clientes) + [Client(nome, telefone)] else old(clientes)
    {
      added := nome != [];
      if added {
        clientes := clientes + [Client(nome, telefone)];
      }
    }

    /**
     * "Registrar Venda": a refused form leaves the list and the file as
     * they were; an admitted one appends the built sale at the end, keeps
     * every earlier sale, and saves.
     */
    method RegisterSale(f: SaleForm) returns (outcome: SaleOutcome)
      requires WidgetBounds(f)
      modifies this`vendas, this`arquivo
      ensures outcome == Admission(clientes, f)
      ensures outcome != Recorded ==> vendas == old(vendas) && arquivo == old(arquivo)
      ensures outcome == Recorded ==> vendas == old(vendas) + [BuildSale(f)] && arquivo == Present(vendas)
      ensures old(Consistent()) ==> Consistent()
    {
      outcome := Admission(clientes, f);
      if outcome == Recorded {
        vendas := vendas + [BuildSale(f)];
        Flush();
      }
    }

    /**
     * "Apagar Selecionados": with nothing selected, nothing changes and
     * nothing is saved; otherwise the sales whose labels were selected go,
     * the rest keep their order, and the list is saved.
     */
    method DeleteSelected(selected: seq<string>) returns (outcome: DeleteOutcome)
      requires forall l :: l in selected ==> l in SaleOptions(vendas)
      modifies this`vendas, this`arquivo
      ensures outcome == NothingSelected <==> selected == []
      ensures selected == [] ==> vendas == old(vendas) && arquivo == old(arquivo)
      ensures selected != [] ==> vendas == KeepUnselected(old(vendas), SaleOptions(old(vendas)), selected)
      ensures selected != [] ==> arquivo == Present(vendas)
      ensures old(Consistent()) ==> Consistent()
    {
      if selected == [] {
        outcome := NothingSelected;
        return;
      }
      var options := SaleOptions(vendas);
      SaleOptionsNumbered(vendas);
      DeleteBySelection(vendas, options, selected);
      if Consistent() {
        KeepUnselectedKeeps(vendas, options, selected, SplitOk);
      }
      var indices := ParseIndices(selected).value;
      vendas := Remove(vendas, indices);
      Flush();
      outcome := Deleted;
    }
  }

  /** Registering "Ana" makes her the one name the sale form offers. */
  method RegisterScenario() {
    var register := new Vendedores.Register(Absent);
    var added := register.Add("Ana");
    assert register.vendedores == [Vendedores.Salesperson("Ana")];
    var names := SalespersonNames(register.arquivo);
    assert names.records == Vendedores.Names(register.vendedores);
    assert names.records == ["Ana"];
  }

  /**
   * A full payment of 200.00 by "Bob" for "Widget", sold by "Ana": it is
   * recorded as the only sale, so the totals read 200.00, 200.00 and 0.00.
   */
  method SalesScenario() {
    var page := new SalesPage(Absent);
    var added := page.AddClient("Bob", "");
    var form := SaleForm("Bob", "Widget", 20000, Some("Ana"), AVista, 0);
    var before := page.vendas;
    assert before == [];
    var outcome := page.RegisterSale(form);
    assert outcome == Recorded;
    var sale := BuildSale(form);
    assert page.vendas == [sale];
    assert sale.valorPago == 20000 && sale.valorAReceber == 0;
    FullPaymentSummary(form);
    assert Summarize(page.vendas) == Summary(20000, 20000, 0);
  }

  /**
   * Reopening a file that holds that one sale and deleting it leaves an
   * empty list and saves an empty file.
   */
  method DeleteScenario() {
    var sale := Sale("Ana", "Bob", "Widget", 20000, AVista, 20000, 0);
    var page := new SalesPage(Present([sale]));
    var options := SaleOptions(page.vendas);
    var selected := [options[0]];
    var deleted := page.DeleteSelected(selected);
    assert page.vendas == KeepUnselected([sale], options, selected);
    assert page.vendas == [];
    assert LoadSales(page.arquivo).records == [];
  }
}
