/** The archive format by names: which value stands under which column of the header, and
    how the record types, setting keys and transaction types are spelled. */
module ArchiveColumns {
  import opened Bytes
  import opened ArchiveRows
  import G = CsvGuard
  import B = Base64
  import IntText

  datatype Column =
    | CsvVersion | RecordType | Id | TransactionId | ParentId | ChildId | TagId | Account | Date | Item | Type | Amount
    | Balance | Memo | Filename | MimeType | DataBase64 | TagName | TagParentId | TagLevel | SettingName | SettingValue | CreatedAt

  /** The columns of the header line, in order. */
  const HEADER: seq<Column> :=
    [CsvVersion, RecordType, Id, TransactionId, ParentId, ChildId, TagId, Account, Date, Item, Type, Amount, Balance, Memo, Filename,
     MimeType, DataBase64, TagName, TagParentId, TagLevel, SettingName, SettingValue, CreatedAt]

  function TxValue(rules: Rules, r: Row, column: Column): Data
    requires r.TxRow?
  {
    match column
    case Id => IntText.Format(r.id)
    case Account => TextCell(rules, r.account)
    case Date => TextCell(rules, rules.dateText(r.date))
    case Item => TextCell(rules, r.item)
    case Type => TextCell(rules, TypeText(r.income))
    case Amount => IntText.Format(r.amount)
    case Balance => IntText.Format(r.balance)
    case Memo => TextCell(rules, r.memo)
    case _ => []
  }

  function ImageValue(rules: Rules, r: Row, column: Column): Data
    requires r.ImageRow?
  {
    match column
    case Id => IntText.Format(r.id)
    case TransactionId => IntText.Format(r.tx)
    case Filename => TextCell(rules, r.filename)
    case MimeType => TextCell(rules, r.mimeType)
    case DataBase64 => B.EncodePadded(r.data)
    case CreatedAt => TextCell(rules, r.created)
    case _ => []
  }

  function TagValue(rules: Rules, r: Row, column: Column): Data
    requires r.TagRow?
  {
    match column
    case Id => IntText.Format(r.id)
    case TagName => TextCell(rules, r.name)
    case TagParentId => if r.parent.None? then [] else IntText.Format(r.parent.value)
    case TagLevel => IntText.Format(r.level)
    case _ => []
  }

  /** The value of a row under a column; a column foreign to its record type is empty. */
  function ValueUnder(rules: Rules, r: Row, column: Column): Data {
    if column == CsvVersion then [51]
    else if column == RecordType then KindText(KindOfRow(r))
    else match r
      case TxRow(_, _, _, _, _, _, _, _, _) => TxValue(rules, r, column)
      case ImageRow(_, _, _, _, _, _, _) => ImageValue(rules, r, column)
      case TagRow(_, _, _, _, _) => TagValue(rules, r, column)
      case TagLinkRow(tx, tag) =>
        if column == TransactionId then IntText.Format(tx) else if column == TagId then IntText.Format(tag) else []
      case LinkRow(first, second) =>
        if column == ParentId then IntText.Format(first) else if column == ChildId then IntText.Format(second) else []
      case SettingRow(_, key, value) =>
        if column == SettingName then TextCell(rules, KeyText(key)) else if column == SettingValue then TextCell(rules, value) else []
  }

  lemma {:induction false} TxCellsAreNamed(rules: Rules, r: Row, c: nat)
    requires r.TxRow? && 2 <= c < |HEADER|
    ensures CellAt(rules, r, c) == TxValue(rules, r, HEADER[c])
  {
  }

  lemma {:induction false} ImageCellsAreNamed(rules: Rules, r: Row, c: nat)
    requires r.ImageRow? && 2 <= c < |HEADER|
    ensures CellAt(rules, r, c) == ImageValue(rules, r, HEADER[c])
  {
  }

  lemma {:induction false} TagCellsAreNamed(rules: Rules, r: Row, c: nat)
    requires r.TagRow? && 2 <= c < |HEADER|
    ensures CellAt(rules, r, c) == TagValue(rules, r, HEADER[c])
  {
  }

  lemma {:induction false} PairCellsAreNamed(rules: Rules, r: Row, c: nat)
    requires (r.TagLinkRow? || r.LinkRow? || r.SettingRow?) && 2 <= c < |HEADER|
    ensures CellAt(rules, r, c) == ValueUnder(rules, r, HEADER[c])
  {
  }

  /** Every cell of a row is the value under its column. */
  lemma {:induction false} CellsAreNamed(rules: Rules, r: Row, c: nat)
    requires c < |HEADER|
    ensures |Cells(rules, r)| == |HEADER| == 23 && Cells(rules, r)[c] == ValueUnder(rules, r, HEADER[c])
  {
    if c >= 2 {
      match r
      case TxRow(_, _, _, _, _, _, _, _, _) => TxCellsAreNamed(rules, r, c);
      case ImageRow(_, _, _, _, _, _, _) => ImageCellsAreNamed(rules, r, c);
      case TagRow(_, _, _, _, _) => TagCellsAreNamed(rules, r, c);
      case _ => PairCellsAreNamed(rules, r, c);
    }
  }

  /** The columns of each record type beside version and type. */
  function ColumnsOf(k: Kind): set<Column> {
    match k
    case TransactionKind(_) => {Id, Account, Date, Item, Type, Amount, Balance, Memo}
    case ImageKind(_) => {Id, TransactionId, Filename, MimeType, DataBase64, CreatedAt}
    case TagKind(_) => {Id, TagName, TagParentId, TagLevel}
    case TagLinkKind => {TransactionId, TagId}
    case LinkKind => {ParentId, ChildId}
    case SettingKind(_) => {SettingName, SettingValue}
  }

  lemma {:induction false} AllowedExactly(k: Kind, c: nat)
    requires 2 <= c < |HEADER|
    ensures Allowed(k, c) <==> HEADER[c] in ColumnsOf(k)
  {
  }

  /** A row that is read hides no value under a column of another record type. */
  lemma {:induction false} NothingHidden(rules: Rules, cells: seq<Data>, c: nat)
    requires ReadRow(rules, cells).Some? && |cells| == |HEADER| && 2 <= c < |HEADER| && cells[c] != []
    ensures HEADER[c] in ColumnsOf(KindOfRow(ReadRow(rules, cells).value))
  {
    AllowedExactly(KindOfRow(ReadRow(rules, cells).value), c);
  }

  // ----- spelling -----

  function KindWord(k: Kind): string {
    match k
    case TransactionKind(legacy) => if legacy then "transaction_legacy" else "transaction"
    case ImageKind(legacy) => if legacy then "image_legacy" else "image"
    case TagKind(legacy) => if legacy then "tag_legacy" else "tag"
    case TagLinkKind => "transaction_tag"
    case LinkKind => "transaction_link"
    case SettingKind(legacy) => if legacy then "setting_legacy" else "setting"
  }

  lemma {:induction false} TransactionWords()
    ensures Spells(TRANSACTION, "transaction") && Spells(TRANSACTION_LEGACY, "transaction_legacy")
  {
  }

  lemma {:induction false} ImageAndTagWords()
    ensures Spells(IMAGE, "image") && Spells(IMAGE_LEGACY, "image_legacy") && Spells(TAG, "tag") && Spells(TAG_LEGACY, "tag_legacy")
  {
  }

  lemma {:induction false} OtherWords()
    ensures Spells(TRANSACTION_TAG, "transaction_tag") && Spells(TRANSACTION_LINK, "transaction_link")
    ensures Spells(SETTING, "setting") && Spells(SETTING_LEGACY, "setting_legacy")
  {
  }

  lemma {:induction false} KindsAreSpelled(k: Kind)
    ensures Spells(KindText(k), KindWord(k))
  {
    if k.TransactionKind? {
      TransactionWords();
    } else if k.ImageKind? || k.TagKind? {
      ImageAndTagWords();
    } else {
      OtherWords();
    }
  }

  lemma {:induction false} NamesAreSpelled()
    ensures Spells(KeyText(CreditCardItems), "credit_card_items") && Spells(KeyText(BankAccountItems), "bank_account_items")
    ensures Spells(TypeText(true), "income") && Spells(TypeText(false), "expense") && Spells(MANIFEST, "manifest")
  {
  }

  lemma {:induction false} DelimitersAreSpelled()
    ensures Spells([G.COMMA, G.QUOTE, G.CR, G.LF], ",\"\r\n")
  {
  }

  // ----- numbers -----

  predicate Positive64(n: int) {
    0 < n <= 9_223_372_036_854_775_807
  }

  /** A row that is read has ids, amounts and levels in range; an image may still be larger than
      its limit by the bytes a group of four letters can hold. */
  predicate InRange(r: Row) {
    match r
    case TxRow(_, id, _, _, _, _, amount, balance, _) =>
      Positive64(id) && Positive64(amount) && -9_223_372_036_854_775_808 <= balance <= 9_223_372_036_854_775_807
    case ImageRow(legacy, id, tx, _, _, data, _) =>
      && (Positive64(id) || (legacy && -9_223_372_036_854_775_808 <= id < 0)) && Positive64(tx)
      && (legacy || data != []) && |data| <= (if legacy then 8_388_608 else 5_242_880) + 2
    case TagRow(_, id, _, parent, level) => Positive64(id) && (parent.Some? ==> Positive64(parent.value)) && 1 <= level <= 3
    case TagLinkRow(tx, tag) => Positive64(tx) && Positive64(tag)
    case LinkRow(first, second) => Positive64(first) && Positive64(second)
    case SettingRow(_, _, _) => true
  }

  lemma {:induction false} ReadIsInRange(rules: Rules, cells: seq<Data>)
    requires ReadRow(rules, cells).Some?
    ensures InRange(ReadRow(rules, cells).value)
  {
    if B.DecodePadded(cells[16]).Some? {
      B.DecodedIsShorter(B.Unpadded(cells[16]));
    }
  }
}
