# Loja_Aula sales and salesperson records, modelled in Dafny

A shop's data-entry application has two pages. The sales page (`models/vendas.py`)
does four things:

- It keeps a session-only list of clients.
- It keeps the list of sales, which is mirrored to `planilha/compras.xlsx`.
- It builds each sale from the form, splitting the payment between "À Vista"
  (paid in full) and "A Prazo" (instalments).
- It shows three totals: sold, received and receivable.

It also lets the user delete sales by picking option labels of the form
`"{i} - ..."`. It reads the salesperson names for its form from
`planilha/vendedores.xlsx`.

The salesperson page (`models/vendedores.py`) keeps the ordered list of
`{"nome": nome}` records. It appends a record when the name is non-empty, and
deletes records with the same label scheme. Every change rewrites that page's
whole file.

The model has six modules:

- `Wrappers` (`wrappers.dfy`): an `Option` type.
- `Labels` (`labels.dfy`): the decimal text of a position, `split(" - ")[0]`,
  `int(...)` on digit runs, and the label round trip.
- `Selection` (`selection.dfy`): the delete comprehension
  `[v for i, v in enumerate(records) if i not in indices]`, a loop method that
  computes it, and its reference meanings. One meaning is the ascending list of
  kept positions. The other is the records whose label was not selected.
- `Planilha` (`planilha.dfy`): a backing file as a value. It is missing, cannot
  be read, or holds contents. A sheet is a map from column header to cells.
- `Vendedores` (`vendedores.dfy`): the class `Register`, which holds the list and
  its file, with load, flush, add and delete.
- `Vendas` (`vendas.dfy`): the sale rules, the totals, `carregar_lista_vendedores`,
  and the class `SalesPage`, which holds clients, sales and the sales file.

Amounts are integer cents. The two Streamlit pages keep their state in
`st.session_state`. Here that state is held by the two classes. A class's
constructor is the first render of a session. Its methods are the form
submissions and button presses. Writing a file is a `Flush` method that replaces
the class's file value and leaves the in-memory list alone.

The user interface itself guarantees some inputs. These are stated as
preconditions:

- The "Valor Total" input has a minimum of 0.
- The "Valor já pago" input lies between 0 and the total.
- The delete multiselect only returns labels from its own options.

The form's checks on client, product and salesperson are modelled as outcomes,
not preconditions. So is an empty selection.

Three behaviours of the code are worth noting; the model follows the code:

- Only `carregar_lista_vendedores` checks for the `nome` column. The salesperson
  page's own load does not check it.
- The sale form does not check that the chosen salesperson is still in the
  register.
- An empty salesperson list is saved as a sheet with no columns at all, because
  `pd.DataFrame([])` has none. After all salespeople are deleted, the sales page
  therefore shows the "no `nome` column" warning. `NamesAfterRegisterFlush`
  states this.

## Model

| member | source | states |
|---|---|---|
| Labels.NatToString | models/vendas.py:125 | the position written into a label is a non-empty run of decimal digits |
| Labels.IndexLabel | models/vendas.py:125 | definition of the label `f"{i} - {rest}"`: the decimal text of the position, the separator, then the rest |
| Labels.ParseNat | models/vendas.py:131 | `int(text)` on a label field gives a number exactly when the field is a non-empty run of digits, and fails otherwise |
| Labels.ParseNatToString | models/vendas.py:124-131 | reading back the decimal text of any position gives that position |
| Labels.FirstField | models/vendas.py:131 | `split(" - ")[0]` is a prefix of the label with no separator starting inside it, and it is followed by the separator unless it is the whole label |
| Labels.ParseIndex | models/vendas.py:131 | definition of `int(label.split(" - ")[0])`, None where that raises |
| Labels.LabelRoundTrip | models/vendedores.py:50-58 | the label `f"{i} - {rest}"` parses back to `i` for every `rest`, including one that contains " - " |
| Labels.ParseIndices | models/vendas.py:131 | the parsed list has one index per selected label, each the parse of its label; parsing fails only if some label does not parse |
| Labels.SelectionIndices | models/vendas.py:124-131 | for a selection taken from numbered options, parsing succeeds, each index names the option that was selected, and a position is among the indices exactly when its option was selected |
| Selection.Filtered | models/vendas.py:132-134 | definition of the comprehension `[v for i, v in enumerate(records) if i not in indices]`, the same one as at models/vendedores.py:59-61 |
| Selection.Remove | models/vendas.py:132-134 | the one-pass enumeration loop returns exactly the filtered list |
| Selection.KeptExactly | models/vendas.py:132-134 | the kept positions are exactly the positions below n that are not selected, in strictly ascending order |
| Selection.FilteredIsKept | models/vendas.py:132-134 | the result holds the records at the kept positions, and only those, in their original relative order |
| Selection.FilteredLength | models/vendedores.py:58-61 | the result is shorter by the number of distinct in-range selected positions, so repeated and out-of-range indices remove nothing more |
| Selection.FilteredLengthDistinct | models/vendedores.py:58-61 | with distinct in-range indices, the length is n minus the number of indices |
| Selection.FilteredNothing | models/vendas.py:132-134 | filtering by no indices leaves the list unchanged |
| Selection.FilteredSameNames | models/vendedores.py:58-61 | only the set of selected positions matters, not its order or repetitions |
| Selection.KeepUnselectedKeeps | models/vendas.py:132-134 | a deletion only removes records, so a property of every record holds of every record that remains |
| Selection.FilteredByLabel | models/vendedores.py:58-61 | filtering by parsed indices equals keeping the records whose label was not selected, when an index is present exactly when its label was selected |
| Selection.DeleteBySelection | models/vendas.py:129-134 | deleting labels picked from numbered options parses cleanly and keeps exactly the records whose label was not picked, in order |
| Selection.DeleteLength | models/vendedores.py:54-61 | picking m distinct labels deletes exactly m records |
| Vendedores.LoadRegister | models/vendedores.py:19-29 | a missing file gives an empty list; an unreadable file gives an empty list and an error; a `nome` column gives one record per cell, in file order |
| Vendedores.ToSheet | models/vendedores.py:13-14 | definition of the sheet `pd.DataFrame(vendedores).to_excel` writes: one `nome` column in list order, and no column at all for an empty list |
| Vendedores.RegisterRoundTrip | models/vendedores.py:10-14 | reloading the sheet a flush writes gives back the same records in the same order, and no message |
| Vendedores.SalespersonLabel | models/vendedores.py:51 | definition of the option `f"{i} - {v['nome']}"` |
| Vendedores.SalespersonOptions | models/vendedores.py:50-53 | one option per record, in list order |
| Vendedores.SalespersonOptionsNumbered | models/vendedores.py:50-53 | every delete option parses back to the position of its record, whatever the name contains |
| Vendedores.Register.constructor | models/vendedores.py:19-29 | the first render holds the file's records, or an empty list when the file is missing or unreadable |
| Vendedores.Register.Flush | models/vendedores.py:10-14 | the file is overwritten with the whole list, and reloading it gives the list back |
| Vendedores.Register.Add | models/vendedores.py:33-40 | a non-empty name is appended at the end and saved, with earlier records unchanged and duplicates allowed; an empty name changes neither the list nor the file |
| Vendedores.Register.DeleteSelected | models/vendedores.py:48-66 | nothing selected leaves the list and file as they were; otherwise the records whose labels were selected go, the rest keep their order, and the list is saved |
| Vendas.Admission | models/vendas.py:73-94 | a sale is recorded exactly when a client exists, client and product are filled in, and a salesperson was chosen; otherwise the outcome is the first check that failed, in the order: no client, missing client or product, no salesperson |
| Vendas.BuildSale | models/vendas.py:84-103 | "À Vista": paid equals the total and nothing is receivable; "A Prazo": receivable is the total less what was paid; within the input bounds, paid and receivable are non-negative and add up to the total |
| Vendas.SumTotal | models/vendas.py:116 | definition of `df_vendas["valor_total"].sum()` over the list |
| Vendas.SumPago | models/vendas.py:117 | definition of `df_vendas["valor_pago"].sum()` over the list |
| Vendas.Summarize | models/vendas.py:116-120 | the totals of an empty list are all zero |
| Vendas.SummaryAgreesWithRows | models/vendas.py:116-120 | when every row keeps the payment split, the receivable computed from the two sums equals the sum of the stored receivables, and 0 <= received <= sold |
| Vendas.SummarizeAppend | models/vendas.py:116-120 | recording a sale adds its total, paid amount and remainder to the three totals |
| Vendas.SummaryExample | models/vendas.py:116-120 | sales of 100.00 paid in full and 50.00 with 20.00 paid total 150.00 sold, 120.00 received and 30.00 receivable |
| Vendas.FullPaymentSummary | models/vendas.py:96-120 | a list holding one sale built from a full-payment form shows its amount as sold and as received, and nothing to receive |
| Vendas.SalespersonNames | models/vendas.py:20-33 | no names, and no message, when the file is missing; no names and an error when it cannot be read; no names and a warning when the `nome` column is missing; otherwise the `nome` column in file order |
| Vendas.NamesAfterRegisterFlush | models/vendas.py:20-33 | the sale form offers the names the register last saved, in its order; a register saved empty triggers the missing-column warning |
| Vendas.LoadSales | models/vendas.py:42-51 | the file's rows are taken verbatim; a missing file gives an empty list; an unreadable file gives an empty list and an error |
| Vendas.SaleLabel | models/vendas.py:125 | definition of the option: the position, the separator, then client, product and total separated by bars |
| Vendas.SaleOptions | models/vendas.py:124-127 | one option per sale, in list order |
| Vendas.SaleOptionsNumbered | models/vendas.py:124-127 | every sale option parses back to the position of its sale, whatever the client or product text contains |
| Vendas.SalesPage.constructor | models/vendas.py:38-51 | the first render has no clients and holds the file's sales, or an empty list |
| Vendas.SalesPage.Flush | models/vendas.py:15-18 | the file is overwritten with the whole sales list, and reloading it gives the list back |
| Vendas.SalesPage.AddClient | models/vendas.py:61-69 | a client with a non-empty name is appended and nothing is saved; an empty name changes nothing |
| Vendas.SalesPage.RegisterSale | models/vendas.py:71-106 | a refused form leaves the list and file unchanged; an admitted one appends the built sale last, keeps every earlier sale, and saves; if every stored sale kept the payment split, every one still does |
| Vendas.SalesPage.DeleteSelected | models/vendas.py:122-139 | nothing selected leaves the list and file as they were; otherwise the sales whose labels were selected go, the rest keep their order, the list is saved, and the payment split is preserved |

## Left out

- Streamlit presentation is not modelled: titles, headers, forms, column layout, `st.dataframe`, the success and info messages, and `st.rerun`. Only the warnings and errors that loading reports are modelled, as `Notice` values.
- The sidebar navigation in `app.py` only dispatches to the two pages, so it is not modelled.
- Excel encoding, `os.makedirs` and the file paths are not modelled. Each file is a value that a flush replaces. A failing `to_excel` raises after the list has already changed; that failure path is not modelled.
- `float(...)` conversions and pandas `.sum()` are not modelled. Amounts are integer cents, so there is no rounding.
- `st.session_state` as process-wide state, and concurrent sessions writing the same files, are not modelled. Each page's state is one object.
- Vendas.AmountText: shows cents as reais with two decimals. Python's float text, such as `150.0`, is not reproduced. The text only appears after the label separator, so it cannot change which position a label parses to.
- Labels.ParseNat: accepts only a non-empty run of ASCII digits. Python's `int` also accepts surrounding whitespace, a sign, underscores and other Unicode digits. The labels the pages build never contain any of these.
- Vendedores.LoadRegister: a sheet that has rows but no `nome` column loads as an empty list. In the source it would load records without `nome`, and building the delete labels would then fail. Extra columns in the sheet are dropped.
- Vendas.LoadSales: rows are read as complete sales. Rows with missing or wrongly typed columns, which pandas would accept and the totals would then trip over, are not modelled.
- Vendas.SaleForm: the client and the salesperson are free text here, not choices from the page's select boxes. The model does not check that either one is in the current lists, and neither does the source.
- Vendas.SalesPage.DeleteSelected: with no sales, the source shows no delete button at all. Here the only possible selection is then empty, and the outcome is `NothingSelected`. The same applies to Vendedores.Register.DeleteSelected.
- Clients are never saved and never deleted, as in the source.
