/** The typed rows of a CSV v3 archive and their 23 cells. */
module ArchiveRows {
  import opened Options
  import opened Bytes
  import opened Checked
  import G = CsvGuard
  import opened TextCells
  import B = Base64
  import IntText
  import Balances

  // ----- names in the format -----

  const TRANSACTION: Data := [116, 114, 97, 110, 115, 97, 99, 116, 105, 111, 110]
  const TRANSACTION_LEGACY: Data := [116, 114, 97, 110, 115, 97, 99, 116, 105, 111, 110, 95, 108, 101, 103, 97, 99, 121]
  const IMAGE: Data := [105, 109, 97, 103, 101]
  const IMAGE_LEGACY: Data := [105, 109, 97, 103, 101, 95, 108, 101, 103, 97, 99, 121]
  const TAG: Data := [116, 97, 103]
  const TAG_LEGACY: Data := [116, 97, 103, 95, 108, 101, 103, 97, 99, 121]
  const TRANSACTION_TAG: Data := [116, 114, 97, 110, 115, 97, 99, 116, 105, 111, 110, 95, 116, 97, 103]
  const TRANSACTION_LINK: Data := [116, 114, 97, 110, 115, 97, 99, 116, 105, 111, 110, 95, 108, 105, 110, 107]
  const SETTING: Data := [115, 101, 116, 116, 105, 110, 103]
  const SETTING_LEGACY: Data := [115, 101, 116, 116, 105, 110, 103, 95, 108, 101, 103, 97, 99, 121]
  const MANIFEST: Data := [109, 97, 110, 105, 102, 101, 115, 116]
  const INCOME: Data := [105, 110, 99, 111, 109, 101]
  const EXPENSE: Data := [101, 120, 112, 101, 110, 115, 101]
  const CREDIT_CARD_ITEMS: Data := [99, 114, 101, 100, 105, 116, 95, 99, 97, 114, 100, 95, 105, 116, 101, 109, 115]
  const BANK_ACCOUNT_ITEMS: Data := [98, 97, 110, 107, 95, 97, 99, 99, 111, 117, 110, 116, 95, 105, 116, 101, 109, 115]

  const VERSION3: Data := [51]
  const COLUMNS: nat := 23

  datatype Kind = TransactionKind(legacy: bool) | ImageKind(legacy: bool) | TagKind(legacy: bool) | TagLinkKind | LinkKind
                | SettingKind(legacy: bool)

  function KindText(k: Kind): Data {
    match k
    case TransactionKind(legacy) => if legacy then TRANSACTION_LEGACY else TRANSACTION
    case ImageKind(legacy) => if legacy then IMAGE_LEGACY else IMAGE
    case TagKind(legacy) => if legacy then TAG_LEGACY else TAG
    case TagLinkKind => TRANSACTION_TAG
    case LinkKind => TRANSACTION_LINK
    case SettingKind(legacy) => if legacy then SETTING_LEGACY else SETTING
  }

  function KindOf(text: Data): Option<Kind> {
    if text == TRANSACTION then Some(TransactionKind(false))
    else if text == TRANSACTION_LEGACY then Some(TransactionKind(true))
    else if text == IMAGE then Some(ImageKind(false))
    else if text == IMAGE_LEGACY then Some(ImageKind(true))
    else if text == TAG then Some(TagKind(false))
    else if text == TAG_LEGACY then Some(TagKind(true))
    else if text == TRANSACTION_TAG then Some(TagLinkKind)
    else if text == TRANSACTION_LINK then Some(LinkKind)
    else if text == SETTING then Some(SettingKind(false))
    else if text == SETTING_LEGACY then Some(SettingKind(true))
    else None
  }

  lemma {:induction false} KindBack(k: Kind)
    ensures KindOf(KindText(k)) == Some(k)
    ensures KindText(k) != [] && 97 <= KindText(k)[0] as int <= 122 && |KindText(k)| <= 18 && G.CR !in KindText(k)
  {
  }

  datatype SettingKey = CreditCardItems | BankAccountItems

  function KeyText(k: SettingKey): Data {
    if k.CreditCardItems? then CREDIT_CARD_ITEMS else BANK_ACCOUNT_ITEMS
  }

  function KeyOf(text: Data): Option<SettingKey> {
    if text == CREDIT_CARD_ITEMS then Some(CreditCardItems)
    else if text == BANK_ACCOUNT_ITEMS then Some(BankAccountItems)
    else None
  }

  function TypeText(income: bool): Data {
    if income then INCOME else EXPENSE
  }

  function TypeOf(text: Data): Option<bool> {
    if text == INCOME then Some(true) else if text == EXPENSE then Some(false) else None
  }

  lemma {:induction false} NamesBack(k: SettingKey, income: bool)
    ensures KeyOf(KeyText(k)) == Some(k) && TypeOf(TypeText(income)) == Some(income)
    ensures KeyText(k) != [] && 97 <= KeyText(k)[0] as int <= 122 && |KeyText(k)| <= 18
    ensures TypeText(income) != [] && 97 <= TypeText(income)[0] as int <= 122 && |TypeText(income)| <= 18
    ensures G.CR !in KeyText(k) && G.CR !in TypeText(income)
  {
  }

  // ----- rows -----

  datatype Row =
    | TxRow(legacy: bool, id: int, account: Data, date: Balances.Date, item: Data, income: bool, amount: int, balance: int, memo: Data)
    | ImageRow(legacy: bool, id: int, tx: int, filename: Data, mimeType: Data, data: Data, created: Data)
    | TagRow(legacy: bool, id: int, name: Data, parent: Option<int>, level: int)
    | TagLinkRow(tx: int, tag: int)
    | LinkRow(first: int, second: int)
    | SettingRow(legacy: bool, key: SettingKey, value: Data)

  function KindOfRow(r: Row): Kind {
    match r
    case TxRow(legacy, _, _, _, _, _, _, _, _) => TransactionKind(legacy)
    case ImageRow(legacy, _, _, _, _, _, _) => ImageKind(legacy)
    case TagRow(legacy, _, _, _, _) => TagKind(legacy)
    case TagLinkRow(_, _) => TagLinkKind
    case LinkRow(_, _) => LinkKind
    case SettingRow(legacy, _, _) => SettingKind(legacy)
  }

  /** What the format builds on: character classes, how a stored date reads as text, the
      text and size rules of each row, and image preparation. */
  datatype Rules = Rules(classes: Classes, dateText: Balances.Date -> Data, dateOf: Data -> Option<Balances.Date>,
                         accepts: Row -> bool, prepare: (Data, Data, Data) -> Option<(Data, Data, Data)>)

  /** A text that the v3 cell carries. */
  predicate Plain(rules: Rules, v: Data) {
    rules.classes.isUtf8(v) && !Marked(v) && |v| <= G.MAX_FIELD_BYTES
  }

  /** A date whose text the cell carries and the importer reads as that date. */
  predicate DateReads(rules: Rules, date: Balances.Date) {
    Plain(rules, rules.dateText(date)) && rules.dateOf(rules.dateText(date)) == Some(date)
  }

  predicate PlainTexts(rules: Rules, r: Row) {
    match r
    case TxRow(_, _, account, _, item, _, _, _, memo) =>
      Plain(rules, account) && Plain(rules, item) && Plain(rules, memo)
    case ImageRow(_, _, _, filename, mimeType, _, created) =>
      Plain(rules, filename) && Plain(rules, mimeType) && Plain(rules, created)
    case TagRow(_, _, name, _, _) => Plain(rules, name)
    case TagLinkRow(_, _) => true
    case LinkRow(_, _) => true
    case SettingRow(_, _, value) => Plain(rules, value)
  }

  /** The text rules refuse control characters, so every text of an accepted row survives
      its cell; and nothing empty passes as an image. */
  ghost predicate Sound(rules: Rules) {
    && (forall r :: rules.accepts(r) ==> PlainTexts(rules, r))
    && forall filename, mimeType :: rules.prepare(filename, mimeType, []).None?
  }

  const MAX_IMAGE_BYTES: nat := 5 * 1024 * 1024
  const MAX_ARCHIVED_IMAGE_BYTES: nat := 8 * 1024 * 1024

  /** How large an image may be; an archived one may be older than the current limit. */
  function ImageLimit(legacy: bool): nat {
    if legacy then MAX_ARCHIVED_IMAGE_BYTES else MAX_IMAGE_BYTES
  }

  // ----- cells -----

  function Allowed(k: Kind, c: nat): bool {
    match k
    case TransactionKind(_) => c == 2 || 7 <= c <= 13
    case ImageKind(_) => c == 2 || c == 3 || 14 <= c <= 16 || c == 22
    case TagKind(_) => c == 2 || 17 <= c <= 19
    case TagLinkKind => c == 3 || c == 6
    case LinkKind => c == 4 || c == 5
    case SettingKind(_) => c == 20 || c == 21
  }

  function TextCell(rules: Rules, v: Data): Data {
    EncodeV3(rules.classes, v)
  }

  function CellAt(rules: Rules, r: Row, c: nat): Data {
    if c == 0 then VERSION3
    else if c == 1 then KindText(KindOfRow(r))
    else match r
      case TxRow(_, id, account, date, item, income, amount, balance, memo) =>
        if c == 2 then IntText.Format(id)
        else if c == 7 then TextCell(rules, account)
        else if c == 8 then TextCell(rules, rules.dateText(date))
        else if c == 9 then TextCell(rules, item)
        else if c == 10 then TextCell(rules, TypeText(income))
        else if c == 11 then IntText.Format(amount)
        else if c == 12 then IntText.Format(balance)
        else if c == 13 then TextCell(rules, memo)
        else []
      case ImageRow(_, id, tx, filename, mimeType, data, created) =>
        if c == 2 then IntText.Format(id)
        else if c == 3 then IntText.Format(tx)
        else if c == 14 then TextCell(rules, filename)
        else if c == 15 then TextCell(rules, mimeType)
        else if c == 16 then B.EncodePadded(data)
        else if c == 22 then TextCell(rules, created)
        else []
      case TagRow(_, id, name, parent, level) =>
        if c == 2 then IntText.Format(id)
        else if c == 17 then TextCell(rules, name)
        else if c == 18 then if parent.Some? then IntText.Format(parent.value) else []
        else if c == 19 then IntText.Format(level)
        else []
      case TagLinkRow(tx, tag) =>
        if c == 3 then IntText.Format(tx) else if c == 6 then IntText.Format(tag) else []
      case LinkRow(first, second) =>
        if c == 4 then IntText.Format(first) else if c == 5 then IntText.Format(second) else []
      case SettingRow(_, key, value) =>
        if c == 20 then TextCell(rules, KeyText(key)) else if c == 21 then TextCell(rules, value) else []
  }

  function Cells(rules: Rules, r: Row): seq<Data> {
    seq(COLUMNS, c requires 0 <= c < COLUMNS => CellAt(rules, r, c))
  }

  // ----- reading -----

  function ReadText(rules: Rules, cell: Data): Option<Data> {
    if |cell| > G.MAX_GUARD_FIELD_BYTES then None
    else
      var v := DecodeV3(rules.classes, cell);
      if v.Err? || |v.value| > G.MAX_FIELD_BYTES then None else Some(v.value)
  }

  function ReadInt(cell: Data, required: bool, positive: bool): Option<int> {
    if |cell| > G.MAX_GUARD_FIELD_BYTES then None
    else if IntText.Trimmed(cell) == [] then if required then None else Some(0)
    else
      var n := IntText.Parse(IntText.Trimmed(cell));
      if n.None? || !Fits(n.value) || (positive && n.value <= 0) then None else n
  }

  predicate Shaped(k: Kind, cells: seq<Data>)
    requires |cells| == COLUMNS
  {
    forall c :: 2 <= c < COLUMNS ==> Allowed(k, c) || cells[c] == []
  }

  function ReadTx(rules: Rules, legacy: bool, cells: seq<Data>): Option<Row>
    requires |cells| == COLUMNS
  {
    var id, amount, balance := ReadInt(cells[2], true, true), ReadInt(cells[11], true, true), ReadInt(cells[12], false, false);
    var account, item, memo := ReadText(rules, cells[7]), ReadText(rules, cells[9]), ReadText(rules, cells[13]);
    var dateText, typeText := ReadText(rules, cells[8]), ReadText(rules, cells[10]);
    if id.None? || amount.None? || balance.None? || account.None? || item.None? || memo.None? || dateText.None? || typeText.None?
    then None
    else
      var date, income := rules.dateOf(dateText.value), TypeOf(typeText.value);
      if date.None? || income.None? then None
      else Some(TxRow(legacy, id.value, account.value, date.value, item.value, income.value, amount.value, balance.value, memo.value))
  }

  function ReadImage(rules: Rules, legacy: bool, cells: seq<Data>): Option<Row>
    requires |cells| == COLUMNS
  {
    var id, tx := ReadInt(cells[2], true, !legacy), ReadInt(cells[3], true, true);
    var filename, mimeType, created := ReadText(rules, cells[14]), ReadText(rules, cells[15]), ReadText(rules, cells[22]);
    var data := if |cells[16]| > B.PaddedLen(ImageLimit(legacy)) then None else B.DecodePadded(cells[16]);
    if id.None? || id.value == 0 || tx.None? || filename.None? || mimeType.None? || created.None? || data.None? then None
    else if !legacy && data.value == [] then None
    else Some(ImageRow(legacy, id.value, tx.value, filename.value, mimeType.value, data.value, created.value))
  }

  function ReadTag(rules: Rules, legacy: bool, cells: seq<Data>): Option<Row>
    requires |cells| == COLUMNS
  {
    var id, parent, level := ReadInt(cells[2], true, true), ReadInt(cells[18], false, true), ReadInt(cells[19], true, true);
    var name := ReadText(rules, cells[17]);
    if id.None? || parent.None? || level.None? || name.None? || level.value > 3 then None
    else Some(TagRow(legacy, id.value, name.value, if parent.value == 0 then None else parent, level.value))
  }

  function ReadPair(first: Data, second: Data): Option<(int, int)> {
    var a, b := ReadInt(first, true, true), ReadInt(second, true, true);
    if a.None? || b.None? then None else Some((a.value, b.value))
  }

  function ReadSetting(rules: Rules, legacy: bool, cells: seq<Data>): Option<Row>
    requires |cells| == COLUMNS
  {
    var keyText, value := ReadText(rules, cells[20]), ReadText(rules, cells[21]);
    if keyText.None? || value.None? || KeyOf(keyText.value).None? then None
    else Some(SettingRow(legacy, KeyOf(keyText.value).value, value.value))
  }

  function ReadBody(rules: Rules, kind: Kind, cells: seq<Data>): Option<Row>
    requires |cells| == COLUMNS
  {
    match kind
    case TransactionKind(legacy) => ReadTx(rules, legacy, cells)
    case ImageKind(legacy) => ReadImage(rules, legacy, cells)
    case TagKind(legacy) => ReadTag(rules, legacy, cells)
    case TagLinkKind =>
      var pair := ReadPair(cells[3], cells[6]);
      if pair.None? then None else Some(TagLinkRow(pair.value.0, pair.value.1))
    case LinkKind =>
      var pair := ReadPair(cells[4], cells[5]);
      if pair.None? then None else Some(LinkRow(pair.value.0, pair.value.1))
    case SettingKind(legacy) => ReadSetting(rules, legacy, cells)
  }

  /** A data row from its cells: the version, a known kind, no value in a foreign
      column, and every cell of the kind readable. */
  function ReadRow(rules: Rules, cells: seq<Data>): Option<Row> {
    if |cells| != COLUMNS || cells[0] != VERSION3 then None
    else
      var kindText := ReadText(rules, cells[1]);
      if kindText.None? || KindOf(kindText.value).None? then None
      else
        var kind := KindOf(kindText.value).value;
        if Shaped(kind, cells) then ReadBody(rules, kind, cells) else None
  }

  // ----- reading back -----

  predicate PositiveId(n: int) {
    Fits(n) && n > 0
  }

  /** A row whose numbers the format can carry. */
  predicate Numbered(r: Row) {
    match r
    case TxRow(_, id, _, _, _, _, amount, balance, _) => PositiveId(id) && PositiveId(amount) && Fits(balance)
    case ImageRow(legacy, id, tx, _, _, data, _) =>
      Fits(id) && id != 0 && (legacy || (id > 0 && data != [])) && PositiveId(tx) && |data| <= ImageLimit(legacy)
    case TagRow(_, id, _, parent, level) => PositiveId(id) && (parent.Some? ==> PositiveId(parent.value)) && 1 <= level <= 3
    case TagLinkRow(tx, tag) => PositiveId(tx) && PositiveId(tag)
    case LinkRow(first, second) => PositiveId(first) && PositiveId(second)
    case SettingRow(_, _, _) => true
  }

  lemma {:induction false} TextBack(rules: Rules, v: Data)
    requires Plain(rules, v)
    ensures ReadText(rules, TextCell(rules, v)) == Some(v)
  {
    RecoversExactly(rules.classes, v);
    FitsTheGuard(rules.classes, v);
  }

  /** A name of the format stands for itself. */
  lemma {:induction false} NameBack(rules: Rules, v: Data)
    requires v != [] && 97 <= v[0] as int <= 122 && |v| <= 18
    ensures ReadText(rules, v) == Some(v)
    ensures G.CR !in v ==> TextCell(rules, v) == v
  {
    MarkerHasNoCR();
  }

  lemma {:induction false} IntBack(n: int, required: bool, positive: bool)
    requires Fits(n) && (positive ==> n > 0)
    ensures ReadInt(IntText.Format(n), required, positive) == Some(n)
  {
    IntText.ParseFormat(n);
    IntText.FormatIsTrimmed(n);
    IntText.FormatLength(n);
  }

  lemma {:induction false} Shape(rules: Rules, r: Row)
    ensures Shaped(KindOfRow(r), Cells(rules, r))
  {
  }

  lemma {:induction false} TxCells(rules: Rules, r: Row)
    requires r.TxRow?
    ensures var cells := Cells(rules, r);
      && |cells| == COLUMNS
      && cells[2] == IntText.Format(r.id) && cells[11] == IntText.Format(r.amount) && cells[12] == IntText.Format(r.balance)
      && cells[7] == TextCell(rules, r.account) && cells[8] == TextCell(rules, rules.dateText(r.date))
      && cells[9] == TextCell(rules, r.item) && cells[10] == TextCell(rules, TypeText(r.income))
      && cells[13] == TextCell(rules, r.memo)
  {
  }

  lemma {:induction false} TxNumbersBack(rules: Rules, r: Row, cells: seq<Data>)
    requires r.TxRow? && Numbered(r) && cells == Cells(rules, r)
    ensures |cells| == COLUMNS
    ensures ReadInt(cells[2], true, true) == Some(r.id) && ReadInt(cells[11], true, true) == Some(r.amount)
    ensures ReadInt(cells[12], false, false) == Some(r.balance)
  {
    TxCells(rules, r);
    IntBack(r.id, true, true);
    IntBack(r.amount, true, true);
    IntBack(r.balance, false, false);
  }

  lemma {:induction false} TxTextsBack(rules: Rules, r: Row, cells: seq<Data>)
    requires r.TxRow? && PlainTexts(rules, r) && cells == Cells(rules, r)
    ensures |cells| == COLUMNS
    ensures ReadText(rules, cells[7]) == Some(r.account) && ReadText(rules, cells[9]) == Some(r.item)
    ensures ReadText(rules, cells[13]) == Some(r.memo)
  {
    TxCells(rules, r);
    TextBack(rules, r.account);
    TextBack(rules, r.item);
    TextBack(rules, r.memo);
  }

  lemma {:induction false} TxNamesBack(rules: Rules, r: Row, cells: seq<Data>)
    requires r.TxRow? && DateReads(rules, r.date) && cells == Cells(rules, r)
    ensures |cells| == COLUMNS
    ensures ReadText(rules, cells[8]) == Some(rules.dateText(r.date)) && rules.dateOf(rules.dateText(r.date)) == Some(r.date)
    ensures ReadText(rules, cells[10]) == Some(TypeText(r.income)) && TypeOf(TypeText(r.income)) == Some(r.income)
  {
    TxCells(rules, r);
    TextBack(rules, rules.dateText(r.date));
    NamesBack(CreditCardItems, r.income);
    NameBack(rules, TypeText(r.income));
  }

  lemma {:induction false} TxFrom(rules: Rules, cells: seq<Data>, r: Row)
    requires r.TxRow? && |cells| == COLUMNS
    requires ReadInt(cells[2], true, true) == Some(r.id) && ReadInt(cells[11], true, true) == Some(r.amount)
    requires ReadInt(cells[12], false, false) == Some(r.balance)
    requires ReadText(rules, cells[7]) == Some(r.account) && ReadText(rules, cells[9]) == Some(r.item)
    requires ReadText(rules, cells[13]) == Some(r.memo)
    requires ReadText(rules, cells[8]) == Some(rules.dateText(r.date)) && rules.dateOf(rules.dateText(r.date)) == Some(r.date)
    requires ReadText(rules, cells[10]) == Some(TypeText(r.income)) && TypeOf(TypeText(r.income)) == Some(r.income)
    ensures ReadTx(rules, r.legacy, cells) == Some(r)
  {
  }

  lemma {:induction false} TxBack(rules: Rules, r: Row)
    requires r.TxRow? && PlainTexts(rules, r) && DateReads(rules, r.date) && Numbered(r)
    ensures ReadBody(rules, KindOfRow(r), Cells(rules, r)) == Some(r)
  {
    var cells := Cells(rules, r);
    TxNumbersBack(rules, r, cells);
    TxTextsBack(rules, r, cells);
    TxNamesBack(rules, r, cells);
    TxFrom(rules, cells, r);
  }

  lemma {:induction false} ImageCells(rules: Rules, r: Row)
    requires r.ImageRow?
    ensures var cells := Cells(rules, r);
      && |cells| == COLUMNS
      && cells[2] == IntText.Format(r.id) && cells[3] == IntText.Format(r.tx) && cells[16] == B.EncodePadded(r.data)
      && cells[14] == TextCell(rules, r.filename) && cells[15] == TextCell(rules, r.mimeType)
      && cells[22] == TextCell(rules, r.created)
  {
  }

  lemma {:induction false} ImageDataBack(data: Data, limit: nat)
    requires |data| <= limit
    ensures |B.EncodePadded(data)| <= B.PaddedLen(limit) && B.DecodePadded(B.EncodePadded(data)) == Some(data)
  {
    B.PaddedLength(data);
    B.LongerIsLonger(|data|, limit);
    B.PaddedRoundTrip(data);
  }

  lemma {:induction false} ImageNumbersBack(rules: Rules, r: Row, cells: seq<Data>)
    requires r.ImageRow? && Numbered(r) && cells == Cells(rules, r)
    ensures |cells| == COLUMNS
    ensures ReadInt(cells[2], true, !r.legacy) == Some(r.id) && ReadInt(cells[3], true, true) == Some(r.tx)
    ensures |cells[16]| <= B.PaddedLen(ImageLimit(r.legacy)) && B.DecodePadded(cells[16]) == Some(r.data)
  {
    ImageCells(rules, r);
    ImageDataBack(r.data, ImageLimit(r.legacy));
    IntBack(r.id, true, !r.legacy);
    IntBack(r.tx, true, true);
  }

  lemma {:induction false} ImageTextsBack(rules: Rules, r: Row, cells: seq<Data>)
    requires r.ImageRow? && PlainTexts(rules, r) && cells == Cells(rules, r)
    ensures |cells| == COLUMNS
    ensures ReadText(rules, cells[14]) == Some(r.filename) && ReadText(rules, cells[15]) == Some(r.mimeType)
    ensures ReadText(rules, cells[22]) == Some(r.created)
  {
    ImageCells(rules, r);
    TextBack(rules, r.filename);
    TextBack(rules, r.mimeType);
    TextBack(rules, r.created);
  }

  lemma {:induction false} ImageFrom(rules: Rules, cells: seq<Data>, r: Row)
    requires r.ImageRow? && |cells| == COLUMNS && r.id != 0 && (r.legacy || r.data != [])
    requires ReadInt(cells[2], true, !r.legacy) == Some(r.id) && ReadInt(cells[3], true, true) == Some(r.tx)
    requires |cells[16]| <= B.PaddedLen(ImageLimit(r.legacy)) && B.DecodePadded(cells[16]) == Some(r.data)
    requires ReadText(rules, cells[14]) == Some(r.filename) && ReadText(rules, cells[15]) == Some(r.mimeType)
    requires ReadText(rules, cells[22]) == Some(r.created)
    ensures ReadImage(rules, r.legacy, cells) == Some(r)
  {
  }

  lemma {:induction false} ImageBack(rules: Rules, r: Row)
    requires r.ImageRow? && PlainTexts(rules, r) && Numbered(r)
    ensures ReadBody(rules, KindOfRow(r), Cells(rules, r)) == Some(r)
  {
    var cells := Cells(rules, r);
    ImageNumbersBack(rules, r, cells);
    ImageTextsBack(rules, r, cells);
    ImageFrom(rules, cells, r);
  }

  lemma {:induction false} TagCells(rules: Rules, r: Row)
    requires r.TagRow?
    ensures var cells := Cells(rules, r);
      && |cells| == COLUMNS
      && cells[2] == IntText.Format(r.id) && cells[19] == IntText.Format(r.level) && cells[17] == TextCell(rules, r.name)
      && cells[18] == if r.parent.Some? then IntText.Format(r.parent.value) else []
  {
  }

  lemma {:induction false} TagBack(rules: Rules, r: Row)
    requires r.TagRow? && PlainTexts(rules, r) && Numbered(r)
    ensures ReadBody(rules, KindOfRow(r), Cells(rules, r)) == Some(r)
  {
    TagCells(rules, r);
    IntBack(r.id, true, true);
    IntBack(r.level, true, true);
    if r.parent.Some? { IntBack(r.parent.value, false, true); }
    TextBack(rules, r.name);
  }

  lemma {:induction false} SettingBack(rules: Rules, r: Row)
    requires r.SettingRow? && PlainTexts(rules, r)
    ensures ReadBody(rules, KindOfRow(r), Cells(rules, r)) == Some(r)
  {
    NamesBack(r.key, true);
    NameBack(rules, KeyText(r.key));
    TextBack(rules, r.value);
  }

  lemma {:induction false} PairBack(a: int, b: int)
    requires PositiveId(a) && PositiveId(b)
    ensures ReadPair(IntText.Format(a), IntText.Format(b)) == Some((a, b))
  {
    IntBack(a, true, true);
    IntBack(b, true, true);
  }

  lemma {:induction false} HeadBack(rules: Rules, r: Row)
    ensures ReadRow(rules, Cells(rules, r)) == ReadBody(rules, KindOfRow(r), Cells(rules, r))
  {
    Shape(rules, r);
    KindBack(KindOfRow(r));
    NameBack(rules, KindText(KindOfRow(r)));
    HeadFrom(rules, Cells(rules, r), KindOfRow(r));
  }

  lemma {:induction false} HeadFrom(rules: Rules, cells: seq<Data>, kind: Kind)
    requires |cells| == COLUMNS && cells[0] == VERSION3 && cells[1] == KindText(kind) && Shaped(kind, cells)
    requires ReadText(rules, KindText(kind)) == Some(KindText(kind)) && KindOf(KindText(kind)) == Some(kind)
    ensures ReadRow(rules, cells) == ReadBody(rules, kind, cells)
  {
  }

  lemma {:induction false} TagLinkBack(rules: Rules, r: Row)
    requires r.TagLinkRow? && Numbered(r)
    ensures ReadBody(rules, KindOfRow(r), Cells(rules, r)) == Some(r)
  {
    PairBack(r.tx, r.tag);
  }

  lemma {:induction false} LinkBack(rules: Rules, r: Row)
    requires r.LinkRow? && Numbered(r)
    ensures ReadBody(rules, KindOfRow(r), Cells(rules, r)) == Some(r)
  {
    PairBack(r.first, r.second);
  }

  /** Reading the cells of a row gives the row back. */
  lemma {:induction false} RowBack(rules: Rules, r: Row)
    requires PlainTexts(rules, r) && Numbered(r) && (r.TxRow? ==> DateReads(rules, r.date))
    ensures ReadRow(rules, Cells(rules, r)) == Some(r)
  {
    HeadBack(rules, r);
    match r
    case TxRow(_, _, _, _, _, _, _, _, _) => TxBack(rules, r);
    case ImageRow(_, _, _, _, _, _, _) => ImageBack(rules, r);
    case TagRow(_, _, _, _, _) => TagBack(rules, r);
    case TagLinkRow(_, _) => TagLinkBack(rules, r);
    case LinkRow(_, _) => LinkBack(rules, r);
    case SettingRow(_, _, _) => SettingBack(rules, r);
  }

  lemma {:induction false} CleanCells(rules: Rules)
    ensures forall v :: G.CR !in TextCell(rules, v)
    ensures forall n :: G.CR !in IntText.Format(n)
    ensures forall d :: G.CR !in B.EncodePadded(d)
  {
    forall d ensures G.CR !in B.EncodePadded(d) { B.PaddedRoundTrip(d); }
    forall v ensures G.CR !in TextCell(rules, v) { NeverEmitsCR(rules.classes, v); }
    forall n ensures G.CR !in IntText.Format(n) { IntText.FormatHasNoCR(n); }
  }

  /** No cell of an archive holds a CR, so the CSV layer reads back what was written. */
  lemma {:induction false} CellsHaveNoCR(rules: Rules, r: Row, c: nat)
    requires c < COLUMNS
    ensures G.CR !in Cells(rules, r)[c]
  {
    CleanCells(rules);
    KindBack(KindOfRow(r));
  }
}
