/** The rows the refreshes store, column by column, without reference to the functions that build them. */
module StoredRows {
  import opened Money
  import opened Options
  import opened LivePayload
  import opened WalletRefresh

  /** A section shows its result, or the empty placeholder whose commodity prices are unavailable. */
  predicate ShowsResult(body: Body, s: Section, c: Computed) {
    match c
    case Done(computed) => body == computed
    case Crashed =>
      var available := if s.Commodities? then Some(false) else None;
      body == Body([], map[], map[], available, available)
  }

  ghost predicate TotalFits(row: Row) {
    row.total.Some? && IsHalfEven(PayloadSum(row.payload), row.total.value)
  }

  /** A success with a new refresh time. */
  predicate Succeeds(row: Row, now: int) {
    row.status == Ok && row.error == None && row.refreshedAt == Some(now)
  }

  predicate KeepsRefreshTime(row: Row, before: Option<Row>) {
    row.refreshedAt == if before.Some? then before.value.refreshedAt else None
  }

  /** The copied columns are those of the row that was read; where there was none they are empty. */
  predicate KeepsRates(row: Row, read: Option<Row>) {
    row.rates == if read.Some? then read.value.rates else None
  }

  predicate KeepsIssues(row: Row, read: Option<Row>) {
    row.issues == if read.Some? then read.value.issues else []
  }

  predicate KeepsPayload(row: Row, read: Option<Row>) {
    row.payload == if read.Some? then read.value.payload else map[]
  }

  predicate KeepsTotal(row: Row, read: Option<Row>) {
    row.total == if read.Some? then read.value.total else None
  }

  /** Every section other than `s` is as it was read. */
  ghost predicate KeepsOthers(row: Row, read: Option<Row>, s: Section) {
    forall t :: t != s ==>
      && (t in row.payload <==> read.Some? && t in read.value.payload)
      && (t in row.payload ==> row.payload[t] == read.value.payload[t])
  }

  /** A full refresh: ok as soon as one section is there, an error over the old refresh time when none is. */
  ghost predicate StoresFull(row: Row, before: Option<Row>, results: Results, rates: Option<string>, now: int) {
    && (forall s: Section :: s in row.payload && ShowsResult(row.payload[s], s, results(s)))
    && row.rates == rates && TotalFits(row)
    && ((exists s :: results(s).Done?) ==> Succeeds(row, now))
    && ((forall s :: results(s).Crashed?) ==>
          && row.status == Error && row.error == Some("Tüm veri kaynakları geçici olarak erişilemez.")
          && KeepsRefreshTime(row, before))
  }

  /** A section refresh: a success even when the section has crashed. */
  ghost predicate StoresSection(row: Row, read: Option<Row>, s: Section, c: Computed, now: int) {
    && s in row.payload && ShowsResult(row.payload[s], s, c) && KeepsOthers(row, read, s)
    && TotalFits(row) && KeepsRates(row, read) && Succeeds(row, now)
  }

  ghost predicate StoresWallet(row: Row, read: Option<Row>, now: int) {
    && Wallets in row.payload && KeepsOthers(row, read, Wallets)
    && TotalFits(row) && KeepsRates(row, read) && KeepsIssues(row, read) && Succeeds(row, now)
  }

  /** A wallet whose compute raised: everything that was read, with the status back at ok. */
  predicate StoresUnchanged(row: Row, before: Option<Row>, read: Option<Row>) {
    && KeepsPayload(row, read) && KeepsTotal(row, read) && KeepsRates(row, read) && KeepsIssues(row, read)
    && row.status == Ok && row.error == None && KeepsRefreshTime(row, before)
  }

  /** A refresh that failed as a whole: everything that was read, with an error. */
  predicate StoresError(row: Row, before: Option<Row>, read: Option<Row>, message: string) {
    && KeepsPayload(row, read) && KeepsTotal(row, read) && KeepsRates(row, read) && KeepsIssues(row, read)
    && row.status == Error && row.error == Some(message) && KeepsRefreshTime(row, before)
  }

  /** A status write: every other column of an existing row stays, a new row is empty. */
  predicate StoresMark(row: Row, before: Option<Row>) {
    && KeepsPayload(row, before) && KeepsTotal(row, before) && KeepsRates(row, before) && KeepsIssues(row, before)
    && row.status == Refreshing && KeepsRefreshTime(row, before)
    && row.error == if before.Some? then before.value.error else None
  }

  lemma EverySection(s: Section)
    ensures s in ALL_SECTIONS
  {
  }

  lemma FullRowStores(before: Option<Row>, results: Results, rates: Option<string>, linked: Option<seq<Linked>>,
                      now: int)
    ensures StoresFull(FullRow(before, results, rates, linked, now), before, results, rates, now)
  {
    var row := FullRow(before, results, rates, linked, now);
    HalfEvenExact(PayloadSum(row.payload), row.total.value);
    forall s: Section
      ensures s in row.payload && ShowsResult(row.payload[s], s, results(s))
    {
      EverySection(s);
    }
    if s :| results(s).Done? {
      EverySection(s);
    }
  }

  lemma SectionRowStores(read: Option<Row>, s: Section, c: Computed, linked: Option<seq<Linked>>, now: int)
    ensures StoresSection(SectionRow(read, s, c, linked, now), read, s, c, now)
  {
    var row := SectionRow(read, s, c, linked, now);
    HalfEvenExact(PayloadSum(row.payload), row.total.value);
  }

  lemma WalletRowStores(read: Option<Row>, wid: string, res: WalletResult, now: int)
    ensures StoresWallet(WalletRow(read, wid, res, now), read, now)
  {
    var row := WalletRow(read, wid, res, now);
    HalfEvenExact(PayloadSum(row.payload), row.total.value);
  }

  lemma OtherRowsStore(before: Option<Row>, read: Option<Row>, message: string)
    ensures StoresError(MarkedRow(before, read, message), before, read, message)
    ensures read.Some? ==> StoresUnchanged(UnchangedRow(before, read.value), before, read)
    ensures StoresMark(SetRefreshing(before), before)
  {
  }
}
