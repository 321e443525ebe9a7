/** Version numbers and lineage of published assets: concurrent publish transactions that lock their project
    row, read the highest number and insert, and the migration that numbered the older models. */
module AssetVersions {
  import opened Outcomes
  import opened Text

  type Id = string

  // ----- tokens

  const MAX_TOKEN := 120

  predicate IsTokenStart(c: char) { 'a' <= c <= 'z' || '0' <= c <= '9' }

  predicate IsToken(s: string) {
    && 0 < |s| <= MAX_TOKEN
    && IsTokenStart(s[0])
    && forall c <- s :: IsTokenStart(c) || c == '_' || c == '-'
  }

  /** The normalised token, or nothing when the text is not one. */
  function RequiredToken(value: string): Option<string> {
    var normalized := Lower(Strip(value));
    if IsToken(normalized) then Some(normalized) else None
  }

  lemma TokenIsNormal(t: string)
    requires IsToken(t)
    ensures RequiredToken(t) == Some(t)
  {
    assert forall i :: 0 <= i < |t| ==> t[i] in t;
    assert Strip(t) == t;
    assert Lower(t) == t;
  }

  /** `core` is the normal form of `text`, in characters: 1 to 120 lower-case letters, digits, underscores and dashes, a
      letter or digit first, which `text` spells in any letter case between any white space. */
  ghost predicate Spells(text: string, core: string) {
    && 1 <= |core| <= 120
    && ('a' <= core[0] <= 'z' || '0' <= core[0] <= '9')
    && (forall k :: 0 <= k < |core| ==>
          'a' <= core[k] <= 'z' || '0' <= core[k] <= '9' || core[k] == '_' || core[k] == '-')
    && exists i :: SpelledAt(text, core, i)
  }

  ghost predicate SpelledAt(text: string, core: string, i: nat) {
    && i + |core| <= |text| && Blank(text[..i]) && Blank(text[i + |core|..])
    && forall k :: 0 <= k < |core| ==> Folds(text[i + k], core[k])
  }

  /** The character itself, its capital, or the sign for kelvin for a k. */
  predicate Folds(c: char, lower: char) {
    || (c == lower && !('A' <= c <= 'Z'))
    || ('A' <= c <= 'Z' && c as int + 32 == lower as int)
    || (c as int == 0x212A && lower == 'k')
  }

  lemma FoldsIsLower(c: char, lower: char)
    requires 'a' <= lower <= 'z' || '0' <= lower <= '9' || lower == '_' || lower == '-'
    ensures Folds(c, lower) <==> LowerChar(c) == lower
    ensures Folds(c, lower) ==> !IsSpace(c)
  {
  }

  lemma TokenCharacters(core: string)
    ensures IsToken(core) <==>
            && 1 <= |core| <= 120 && ('a' <= core[0] <= 'z' || '0' <= core[0] <= '9')
            && forall k :: 0 <= k < |core| ==>
                 'a' <= core[k] <= 'z' || '0' <= core[k] <= '9' || core[k] == '_' || core[k] == '-'
  {
    assert forall k :: 0 <= k < |core| ==> core[k] in core;
  }

  /** Exactly which texts are accepted, and as what. */
  lemma TokenIsSpelled(text: string, core: string)
    ensures RequiredToken(text) == Some(core) <==> Spells(text, core)
  {
    TokenCharacters(core);
    if IsToken(core) {
      forall c, k | 0 <= k < |core| ensures Folds(c, core[k]) <==> LowerChar(c) == core[k] {
        FoldsIsLower(c, core[k]);
      }
      hide IsToken, Folds, LowerChar, IsSpace;
      if RequiredToken(text) == Some(core) {
        var i := StripSplits(text);
        assert |Lower(Strip(text))| == |Strip(text)|;
        assert SpelledAt(text, core, i);
      }
      if Spells(text, core) {
        var i :| SpelledAt(text, core, i);
        SpelledIsLower(text, core, i);
      }
    }
  }

  lemma SpelledIsLower(text: string, core: string, i: nat)
    requires IsToken(core) && SpelledAt(text, core, i)
    ensures Lower(Strip(text)) == core
  {
    TokenCharacters(core);
    var j := i + |core|;
    FoldsIsLower(text[i + 0], core[0]);
    FoldsIsLower(text[i + (|core| - 1)], core[|core| - 1]);
    StripIs(text, i, j);
    forall k | 0 <= k < |core| ensures Lower(text[i..j])[k] == core[k] {
      FoldsIsLower(text[i + k], core[k]);
    }
    assert Lower(text[i..j]) == core;
  }

  /** Normalising twice is normalising once: the number read for a normalised key is that key's number. */
  lemma TokenIsFixed(value: string)
    requires RequiredToken(value).Some?
    ensures RequiredToken(RequiredToken(value).value) == RequiredToken(value)
  {
    TokenIsNormal(RequiredToken(value).value);
  }

  // ----- rows

  datatype Slot = Slot(project: Id, assetType: string, logicalKey: string)

  /** What a version replaces in the older tables: their kind of row and its id. */
  type Link = (string, string)

  datatype Version = Version(
    id: Id, slot: Slot, number: int, status: string, parent: Option<Id>, fileTypes: seq<string>, legacy: Option<Link>,
    source: string, otherTextsFit: bool)

  /** Rows in the order they became part of the table. */
  type Log = seq<Version>

  const PUBLISHED_STATUSES := {"published", "ready"}

  /** The aggregate max(version_number), or 0 where the query finds no row. */
  function MaxNumber(log: Log, slot: Slot): int {
    if log == [] then 0
    else
      var rest := MaxNumber(log[..|log| - 1], slot);
      var last := log[|log| - 1];
      if last.slot == slot && last.number > rest then last.number else rest
  }

  function NextVersionNumber(log: Log, slot: Slot): int {
    MaxNumber(log, slot) + 1
  }

  function Count(log: Log, slot: Slot): nat {
    if log == [] then 0
    else Count(log[..|log| - 1], slot) + if log[|log| - 1].slot == slot then 1 else 0
  }

  function Ids(log: Log): set<Id> {
    set v <- log :: v.id
  }

  function Links(log: Log): set<Link> {
    set v <- log | v.legacy.Some? :: v.legacy.value
  }

  /** The k-th row of a slot carries the number k. */
  ghost predicate Dense(log: Log) {
    forall i :: 0 <= i < |log| ==> log[i].number == Count(log[..i], log[i].slot) + 1
  }

  ghost predicate UniqueIds(log: Log) {
    forall i, j :: 0 <= i < j < |log| ==> log[i].id != log[j].id
  }

  predicate HasRow(log: Log, id: Id, project: Id) {
    exists v <- log :: v.id == id && v.slot.project == project
  }

  /** A parent is an earlier row of the same project. */
  ghost predicate ParentsBefore(log: Log) {
    forall i :: 0 <= i < |log| && log[i].parent.Some? ==>
                  HasRow(log[..i], log[i].parent.value, log[i].slot.project)
  }

  ghost predicate Sound(log: Log) {
    Dense(log) && UniqueIds(log) && ParentsBefore(log)
  }

  // ----- publish requests

  /** None stands for a missing text and for the empty one. `otherTextsFit` says that ids, names, content types and
      checksums are not longer than their columns. */
  datatype Request = Request(
    id: Id, project: Id, assetType: string, logicalKey: string, status: string,
    sourceType: string, fileTypes: seq<string>, fileFieldsValid: bool,
    legacyType: Option<string>, legacyId: Option<string>, parent: Option<Id>, otherTextsFit: bool)

  datatype Error = InvalidAssetVersion | ProjectNotFound | DatabaseError

  predicate Distinct<T(==)>(s: seq<T>) {
    forall i, j :: 0 <= i < j < |s| ==> s[i] != s[j]
  }

  /** The checks made before the project is locked, the parent's aside. */
  predicate Validates(r: Request) {
    && RequiredToken(r.assetType).Some?
    && RequiredToken(r.logicalKey).Some?
    && r.status in PUBLISHED_STATUSES
    && r.fileTypes != []
    && Distinct(r.fileTypes)
    && r.legacyType.Some? == r.legacyId.Some?
  }

  function SlotOf(r: Request): Slot
    requires Validates(r)
  {
    Slot(r.project, RequiredToken(r.assetType).value, RequiredToken(r.logicalKey).value)
  }

  /** The checks made while the row is built, after the lock. */
  predicate Buildable(r: Request) {
    && RequiredToken(r.sourceType).Some?
    && r.fileFieldsValid
    && forall t <- r.fileTypes :: RequiredToken(t).Some?
  }

  function NormalTypes(r: Request): seq<string>
    requires Buildable(r)
  {
    seq(|r.fileTypes|, i requires 0 <= i < |r.fileTypes| => RequiredToken(r.fileTypes[i]).value)
  }

  function LegacyLink(r: Request): Option<Link>
    requires Validates(r)
  {
    if r.legacyType.Some? then Some((r.legacyType.value, r.legacyId.value)) else None
  }

  function Row(r: Request, number: int): Version
    requires Validates(r) && Buildable(r)
  {
    Version(r.id, SlotOf(r), number, r.status, r.parent, NormalTypes(r), LegacyLink(r),
      RequiredToken(r.sourceType).value, r.otherTextsFit)
  }

  /** The text spells some token. */
  ghost predicate IsSpelled(text: string) {
    exists core :: Spells(text, core)
  }

  lemma Spellable(text: string)
    ensures RequiredToken(text).Some? <==> IsSpelled(text)
    ensures RequiredToken(text).Some? ==> Spells(text, RequiredToken(text).value)
  {
    if RequiredToken(text).Some? {
      TokenIsSpelled(text, RequiredToken(text).value);
    }
    hide RequiredToken, Spells;
    forall core | Spells(text, core) ensures RequiredToken(text).Some? {
      TokenIsSpelled(text, core);
    }
  }

  /** Every field of a version is the request's field of that name, spelled as a token where it must be one. */
  lemma RowCarriesTheRequest(r: Request, number: int)
    requires Validates(r) && Buildable(r)
    ensures var v := Row(r, number);
            && v.id == r.id && v.number == number && v.status == r.status && v.parent == r.parent
            && v.slot.project == r.project
            && Spells(r.assetType, v.slot.assetType) && Spells(r.logicalKey, v.slot.logicalKey)
            && Spells(r.sourceType, v.source)
            && |v.fileTypes| == |r.fileTypes|
            && (forall i :: 0 <= i < |r.fileTypes| ==> Spells(r.fileTypes[i], v.fileTypes[i]))
            && (v.legacy.Some? <==> r.legacyType.Some? || r.legacyId.Some?)
            && (v.legacy.Some? ==> r.legacyType == Some(v.legacy.value.0) && r.legacyId == Some(v.legacy.value.1))
            && v.otherTextsFit == r.otherTextsFit
  {
    Spellable(r.assetType);
    Spellable(r.logicalKey);
    Spellable(r.sourceType);
    forall i | 0 <= i < |r.fileTypes| ensures Spells(r.fileTypes[i], Row(r, number).fileTypes[i]) {
      Spellable(r.fileTypes[i]);
    }
    hide RequiredToken, Spells;
  }

  /** The checks before the lock, in the characters of the request. */
  lemma ValidatesInCharacters(r: Request)
    ensures Validates(r) <==>
            && IsSpelled(r.assetType) && IsSpelled(r.logicalKey)
            && (r.status == "published" || r.status == "ready")
            && |r.fileTypes| > 0 && (forall i, j :: 0 <= i < j < |r.fileTypes| ==> r.fileTypes[i] != r.fileTypes[j])
            && (r.legacyType.Some? <==> r.legacyId.Some?)
    ensures Validates(r) ==>
            && SlotOf(r).project == r.project
            && Spells(r.assetType, SlotOf(r).assetType) && Spells(r.logicalKey, SlotOf(r).logicalKey)
  {
    Spellable(r.assetType);
    Spellable(r.logicalKey);
    hide RequiredToken, IsSpelled, Spells;
  }

  /** The checks while the row is built. */
  lemma BuildableInCharacters(r: Request)
    ensures Buildable(r) <==>
            && IsSpelled(r.sourceType) && r.fileFieldsValid
            && (forall t <- r.fileTypes :: IsSpelled(t))
    ensures Buildable(r) ==>
            && |NormalTypes(r)| == |r.fileTypes|
            && forall i :: 0 <= i < |r.fileTypes| ==> Spells(r.fileTypes[i], NormalTypes(r)[i])
  {
    forall t: string
      ensures RequiredToken(t).Some? <==> IsSpelled(t)
      ensures RequiredToken(t).Some? ==> Spells(t, RequiredToken(t).value)
    {
      Spellable(t);
    }
    hide RequiredToken, IsSpelled, Spells;
  }

  /** The uniqueness check looks at the file types as written, the table's constraint at the normalised ones:
      two spellings of one type pass the first and not the second. */
  lemma RawFileTypeCheckIsNotEnough(r: Request)
    requires Buildable(r) && r.fileTypes == ["a", "A"]
    ensures Distinct(r.fileTypes) && !Distinct(NormalTypes(r))
  {
    assert r.fileTypes[0] == "a" && r.fileTypes[1] == "A";
    TokenIsNormal("a");
    assert Lower(Strip("A")) == "a";
    hide RequiredToken;
    assert NormalTypes(r)[0] == NormalTypes(r)[1];
  }

  /** On types already in normal form the two checks are the same. */
  lemma NormalFileTypesAreCheckedExactly(r: Request)
    requires Buildable(r)
    requires forall t <- r.fileTypes :: RequiredToken(t) == Some(t)
    ensures NormalTypes(r) == r.fileTypes
    ensures Distinct(NormalTypes(r)) <==> Distinct(r.fileTypes)
  {
    assert forall i :: 0 <= i < |r.fileTypes| ==> r.fileTypes[i] in r.fileTypes;
  }

  // ----- the database and its transactions

  /** Where a transaction is inside a publish call. */
  datatype Work = Idle | Checked(r: Request) | Locked(r: Request) | Numbered(r: Request, number: int)

  datatype Txn = Txn(pending: Log, locks: set<Id>, work: Work)

  /** `strict` says that the database refuses texts that are longer than their column. */
  datatype Db = Db(projects: set<Id>, committed: Log, txns: map<nat, Txn>, strict: bool)

  const FRESH_TXN := Txn([], {}, Idle)

  function Transaction(db: Db, t: nat): Txn {
    if t in db.txns then db.txns[t] else FRESH_TXN
  }

  /** A transaction reads committed rows and its own. */
  function Visible(db: Db, t: nat): Log {
    db.committed + Transaction(db, t).pending
  }

  predicate LockFree(db: Db, t: nat, project: Id) {
    forall u <- db.txns :: u != t ==> project !in db.txns[u].locks
  }

  predicate NothingToWaitFor(db: Db, t: nat, r: Request) {
    && LockFree(db, t, r.project)
    && forall u <- db.txns :: u != t ==>
         && r.id !in Ids(db.txns[u].pending)
         && (Validates(r) ==> !LinkIn(db.txns[u].pending, LegacyLink(r)))
  }

  predicate LinkIn(log: Log, link: Option<Link>) {
    link.Some? && link.value in Links(log)
  }

  lemma OwnChangesDoNotWait(db: Db, t: nat, r: Request, txn: Txn)
    requires NothingToWaitFor(db, t, r)
    ensures NothingToWaitFor(WithTxn(db, t, txn), t, r)
  {
  }

  datatype InsertOutcome = Inserted | Waits | IdTaken | NumberTaken | FileTypeTaken | LegacyTaken | TooLong

  predicate SlotNumberIn(log: Log, slot: Slot, number: int) {
    exists v <- log :: v.slot == slot && v.number == number
  }

  const TYPE_WIDTH := 32

  /** A token may have 120 characters, the columns for types have 32. */
  predicate FitsColumns(v: Version) {
    && |v.slot.assetType| <= TYPE_WIDTH && |v.source| <= TYPE_WIDTH && v.otherTextsFit
    && forall t <- v.fileTypes :: |t| <= TYPE_WIDTH
  }

  /** A version fits exactly when none of its types has more than 32 characters, and there are tokens of 33. */
  lemma ValidTokensMayNotFit(v: Version)
    ensures FitsColumns(v) <==>
            && |v.slot.assetType| <= 32 && |v.source| <= 32 && v.otherTextsFit
            && forall i :: 0 <= i < |v.fileTypes| ==> |v.fileTypes[i]| <= 32
    ensures exists token :: RequiredToken(token) == Some(token) && |token| == 33
  {
    assert forall i :: 0 <= i < |v.fileTypes| ==> v.fileTypes[i] in v.fileTypes;
    var token := seq(33, i => 'a');
    TokenIsNormal(token);
  }

  /** The constraints a flush meets: a clash with a visible row is an error, one with another transaction's
      uncommitted row waits for that transaction to end. */
  function InsertResult(db: Db, t: nat, v: Version): InsertOutcome {
    if db.strict && !FitsColumns(v) then TooLong
    else if v.id in Ids(Visible(db, t)) then IdTaken
    else if SlotNumberIn(Visible(db, t), v.slot, v.number) then NumberTaken
    else if LinkIn(Visible(db, t), v.legacy) then LegacyTaken
    else if exists u <- db.txns :: u != t &&
              (|| v.id in Ids(db.txns[u].pending) || SlotNumberIn(db.txns[u].pending, v.slot, v.number)
               || LinkIn(db.txns[u].pending, v.legacy)) then Waits
    else if !Distinct(v.fileTypes) then FileTypeTaken
    else Inserted
  }

  datatype Step =
    | Check(t: nat, r: Request)
    | Lock(t: nat)
    | ReadMax(t: nat)
    | Insert(t: nat)
    | Commit(t: nat)
    | Rollback(t: nat)

  function WithTxn(db: Db, t: nat, txn: Txn): Db {
    db.(txns := db.txns[t := txn])
  }

  function Aborted(db: Db, t: nat): Db {
    db.(txns := db.txns - {t})
  }

  /** One step of one transaction; a step that is not possible now leaves the database alone. */
  function Apply(db: Db, step: Step): Db {
    var txn := Transaction(db, step.t);
    match step
    case Check(t, r) =>
      if txn.work.Idle? && Validates(r) && (r.parent.Some? ==> HasRow(Visible(db, t), r.parent.value, r.project))
      then WithTxn(db, t, txn.(work := Checked(r)))
      else db
    case Lock(t) =>
      if !txn.work.Checked? || !LockFree(db, t, txn.work.r.project) then db
      else if txn.work.r.project !in db.projects then WithTxn(db, t, txn.(work := Idle))
      else WithTxn(db, t, txn.(locks := txn.locks + {txn.work.r.project}, work := Locked(txn.work.r)))
    case ReadMax(t) =>
      if !txn.work.Locked? || !Validates(txn.work.r) then db
      else WithTxn(db, t, txn.(work := Numbered(txn.work.r, NextVersionNumber(Visible(db, t), SlotOf(txn.work.r)))))
    case Insert(t) =>
      if !txn.work.Numbered? || !Validates(txn.work.r) then db
      else if !Buildable(txn.work.r) then WithTxn(db, t, txn.(work := Idle))
      else
        var v := Row(txn.work.r, txn.work.number);
        (match InsertResult(db, t, v)
         case Inserted => WithTxn(db, t, txn.(pending := txn.pending + [v], work := Idle))
         case Waits => db
         case _ => Aborted(db, t))
    case Commit(t) => Aborted(db.(committed := Visible(db, t)), t)
    case Rollback(t) => Aborted(db, t)
  }

  function Run(db: Db, steps: seq<Step>): Db
    decreases |steps|
  {
    if steps == [] then db else Run(Apply(db, steps[0]), steps[1..])
  }

  // ----- the invariant

  /** What the transaction has learned about its publish call is still true. */
  ghost predicate WorkHolds(visible: Log, txn: Txn) {
    !txn.work.Idle? ==>
      && Validates(txn.work.r)
      && (txn.work.r.parent.Some? ==> HasRow(visible, txn.work.r.parent.value, txn.work.r.project))
      && (!txn.work.Checked? ==> txn.work.r.project in txn.locks)
      && (txn.work.Numbered? ==> txn.work.number == Count(visible, SlotOf(txn.work.r)) + 1)
  }

  ghost predicate TxnHolds(committed: Log, txn: Txn) {
    && Sound(committed + txn.pending)
    && (forall v <- txn.pending :: v.slot.project in txn.locks)
    && WorkHolds(committed + txn.pending, txn)
  }

  ghost predicate Apart(a: Txn, b: Txn) {
    a.locks !! b.locks && Ids(a.pending) !! Ids(b.pending)
  }

  ghost predicate Inv(db: Db) {
    && Sound(db.committed)
    && (forall t <- db.txns :: TxnHolds(db.committed, db.txns[t]))
    && (forall t, u | t in db.txns && u in db.txns && t != u :: Apart(db.txns[t], db.txns[u]))
  }

  // ----- counting

  lemma {:induction false} CountAppend(a: Log, b: Log, slot: Slot)
    ensures Count(a + b, slot) == Count(a, slot) + Count(b, slot)
  {
    if b == [] {
      assert a + b == a;
    } else {
      assert (a + b)[..|a + b| - 1] == a + b[..|b| - 1];
      CountAppend(a, b[..|b| - 1], slot);
    }
  }

  lemma {:induction false} CountElsewhere(log: Log, slot: Slot)
    requires forall v <- log :: v.slot.project != slot.project
    ensures Count(log, slot) == 0
  {
    if log != [] {
      CountElsewhere(log[..|log| - 1], slot);
    }
  }

  lemma DensePrefix(log: Log, i: nat)
    requires Dense(log) && i <= |log|
    ensures Dense(log[..i])
  {
    assert forall k :: 0 <= k < i ==> log[..i][..k] == log[..k];
  }

  /** In a dense table the aggregate is the number of rows: the next number leaves no gap. */
  lemma {:induction false} MaxIsCount(log: Log, slot: Slot)
    requires Dense(log)
    ensures MaxNumber(log, slot) == Count(log, slot)
  {
    if log != [] {
      var before := log[..|log| - 1];
      DensePrefix(log, |log| - 1);
      MaxIsCount(before, slot);
    }
  }

  lemma DenseAppend(log: Log, v: Version)
    requires Dense(log) && v.number == Count(log, v.slot) + 1
    ensures Dense(log + [v])
  {
    assert forall i :: 0 <= i < |log| ==> (log + [v])[..i] == log[..i];
    assert (log + [v])[..|log|] == log;
  }

  lemma UniqueAppend(log: Log, v: Version)
    requires UniqueIds(log) && v.id !in Ids(log)
    ensures UniqueIds(log + [v])
  {
    assert forall i :: 0 <= i < |log| ==> log[i].id in Ids(log);
  }

  lemma ParentsAppend(log: Log, v: Version)
    requires ParentsBefore(log)
    requires v.parent.Some? ==> HasRow(log, v.parent.value, v.slot.project)
    ensures ParentsBefore(log + [v])
  {
    assert forall i :: 0 <= i < |log| ==> (log + [v])[..i] == log[..i];
    assert (log + [v])[..|log|] == log;
  }

  lemma SoundAppend(log: Log, v: Version)
    requires Sound(log) && v.number == Count(log, v.slot) + 1 && v.id !in Ids(log)
    requires v.parent.Some? ==> HasRow(log, v.parent.value, v.slot.project)
    ensures Sound(log + [v])
  {
    hide Dense, UniqueIds, ParentsBefore;
    DenseAppend(log, v);
    UniqueAppend(log, v);
    ParentsAppend(log, v);
  }

  lemma HasRowGrows(log: Log, more: Log, id: Id, project: Id)
    requires HasRow(log, id, project) && (forall v <- log :: v in more)
    ensures HasRow(more, id, project)
  {
  }

  /** Rows of other projects may slip in before a transaction's own. */
  lemma SoundInsert(a: Log, b: Log, c: Log)
    requires Sound(a + b) && Sound(a + c)
    requires forall v <- b, w <- c :: v.slot.project != w.slot.project
    requires Ids(b) !! Ids(c)
    ensures Sound(a + b + c)
  {
    var all := a + b + c;
    InsertedIdsAreUnique(a, b, c);
    hide Count, HasRow, Ids, UniqueIds;
    forall i | 0 <= i < |all| ensures RowIsSound(all, i) {
      if i < |a + b| {
        assert all[..i] == (a + b)[..i];
        assert all[i] == (a + b)[i];
      } else {
        LaterRowIsSound(a, b, c, i - |a + b|);
      }
    }
    SoundFromRows(all);
  }

  lemma SoundFromRows(log: Log)
    requires UniqueIds(log) && forall i :: 0 <= i < |log| ==> RowIsSound(log, i)
    ensures Sound(log)
  {
    hide Count, HasRow, UniqueIds;
    forall i | 0 <= i < |log| ensures log[i].number == Count(log[..i], log[i].slot) + 1 {
      assert RowIsSound(log, i);
    }
    forall i | 0 <= i < |log| && log[i].parent.Some?
      ensures HasRow(log[..i], log[i].parent.value, log[i].slot.project)
    {
      assert RowIsSound(log, i);
    }
  }

  ghost predicate RowIsSound(log: Log, i: nat)
    requires i < |log|
  {
    && log[i].number == Count(log[..i], log[i].slot) + 1
    && (log[i].parent.Some? ==> HasRow(log[..i], log[i].parent.value, log[i].slot.project))
  }

  lemma LaterRowIsSound(a: Log, b: Log, c: Log, k: nat)
    requires Sound(a + c) && k < |c|
    requires forall v <- b, w <- c :: v.slot.project != w.slot.project
    ensures RowIsSound(a + b + c, |a + b| + k)
  {
    hide Count, HasRow, UniqueIds;
    var v, before := c[k], (a + b + c)[..|a + b| + k];
    assert v in c;
    assert before == a + b + c[..k];
    assert (a + c)[|a| + k] == v && (a + c)[..|a| + k] == a + c[..k];
    CountAppend(a + b, c[..k], v.slot);
    CountAppend(a, b, v.slot);
    CountAppend(a, c[..k], v.slot);
    CountElsewhere(b, v.slot);
    if v.parent.Some? {
      HasRowGrows(a + c[..k], before, v.parent.value, v.slot.project);
    }
  }

  lemma InsertedIdsAreUnique(a: Log, b: Log, c: Log)
    requires UniqueIds(a + b) && UniqueIds(a + c) && Ids(b) !! Ids(c)
    ensures UniqueIds(a + b + c)
  {
    var all := a + b + c;
    forall i, j | 0 <= i < j < |all| ensures all[i].id != all[j].id {
      if j < |a + b| {
        assert all[i] == (a + b)[i] && all[j] == (a + b)[j];
      } else if i < |a| {
        assert all[i] == (a + c)[i] && all[j] == (a + c)[j - |b|];
      } else if i < |a + b| {
        assert all[i] == b[i - |a|] && all[j] == c[j - |a + b|];
        assert all[i].id in Ids(b) && all[j].id in Ids(c);
      } else {
        assert all[i] == (a + c)[i - |b|] && all[j] == (a + c)[j - |b|];
      }
    }
  }

  // ----- each step keeps the invariant

  lemma OthersSurviveCommit(db: Db, t: nat, u: nat)
    requires Inv(db) && t in db.txns && u in db.txns && t != u
    ensures TxnHolds(Visible(db, t), db.txns[u])
  {
    var a, b, c := db.committed, db.txns[t].pending, db.txns[u].pending;
    var other := db.txns[u];
    assert Apart(db.txns[t], other);
    assert TxnHolds(a, db.txns[t]) && TxnHolds(a, other);
    SoundInsert(a, b, c);
    if !other.work.Idle? {
      var slot := SlotOf(other.work.r);
      if other.work.r.parent.Some? {
        HasRowGrows(a + c, a + b + c, other.work.r.parent.value, other.work.r.project);
      }
      if other.work.Numbered? {
        CountAppend(a + b, c, slot);
        CountAppend(a, b, slot);
        CountAppend(a, c, slot);
        CountElsewhere(b, slot);
      }
    }
  }

  lemma CommitKeepsInv(db: Db, t: nat)
    requires Inv(db)
    ensures Inv(Apply(db, Commit(t)))
  {
    var db' := Apply(db, Commit(t));
    if t in db.txns {
      assert TxnHolds(db.committed, db.txns[t]);
      forall u <- db'.txns ensures TxnHolds(db'.committed, db'.txns[u]) {
        OthersSurviveCommit(db, t, u);
      }
    } else {
      assert Visible(db, t) == db.committed;
    }
  }

  /** A transaction that changes may only gain locks nobody else holds and row ids nobody else has. */
  lemma ChangedTxnKeepsInv(db: Db, t: nat, txn: Txn)
    requires Inv(db) && TxnHolds(db.committed, txn)
    requires forall u <- db.txns :: u != t ==> Apart(txn, db.txns[u])
    ensures Inv(WithTxn(db, t, txn))
  {
  }

  lemma TransactionHolds(db: Db, t: nat)
    requires Inv(db)
    ensures TxnHolds(db.committed, Transaction(db, t))
    ensures forall u <- db.txns :: u != t ==> Apart(Transaction(db, t), db.txns[u])
  {
    if t !in db.txns {
      assert db.committed + FRESH_TXN.pending == db.committed;
    }
  }

  /** A number read under the lock is never taken: with the lock held the unique constraint on
      (project, type, key, number) is not what decides a publish. */
  lemma LockedNumberIsFree(db: Db, t: nat)
    requires Inv(db) && Transaction(db, t).work.Numbered? && Buildable(Transaction(db, t).work.r)
    requires Validates(Transaction(db, t).work.r)
    ensures var v := Row(Transaction(db, t).work.r, Transaction(db, t).work.number);
            && !SlotNumberIn(Visible(db, t), v.slot, v.number)
            && forall u <- db.txns :: u != t ==> !SlotNumberIn(db.txns[u].pending, v.slot, v.number)
  {
    TransactionHolds(db, t);
    var txn := Transaction(db, t);
    var visible := Visible(db, t);
    var slot := SlotOf(txn.work.r);
    forall v <- visible | v.slot == slot ensures v.number < txn.work.number {
      NumbersAreAtMostCount(visible, v);
    }
  }

  lemma {:induction false} NumbersAreAtMostCount(log: Log, v: Version)
    requires Dense(log) && v in log
    ensures 1 <= v.number <= Count(log, v.slot)
    decreases |log|
  {
    var before, last := log[..|log| - 1], log[|log| - 1];
    DensePrefix(log, |log| - 1);
    assert last.number == Count(before, last.slot) + 1;
    hide Dense;
    assert log == before + [last];
    if v in before {
      NumbersAreAtMostCount(before, v);
    }
  }

  lemma InsertedStaysApart(db: Db, t: nat, v: Version, txn': Txn)
    requires Inv(db) && InsertResult(db, t, v) == Inserted
    requires txn' == Transaction(db, t).(pending := Transaction(db, t).pending + [v], work := Idle)
    ensures forall u <- db.txns :: u != t ==> Apart(txn', db.txns[u])
  {
    TransactionHolds(db, t);
    hide Inv, SlotNumberIn;
    assert Ids(txn'.pending) == Ids(Transaction(db, t).pending) + {v.id};
  }

  lemma PendingExtends(committed: Log, txn: Txn, v: Version, txn': Txn)
    requires TxnHolds(committed, txn) && Sound(committed + txn.pending + [v]) && v.slot.project in txn.locks
    requires txn' == txn.(pending := txn.pending + [v], work := Idle)
    ensures TxnHolds(committed, txn')
  {
    hide Sound;
    assert committed + txn'.pending == committed + txn.pending + [v];
  }

  lemma InsertedRowHolds(db: Db, t: nat, txn': Txn)
    requires Inv(db) && Transaction(db, t).work.Numbered? && Buildable(Transaction(db, t).work.r)
    requires Validates(Transaction(db, t).work.r)
    requires var v := Row(Transaction(db, t).work.r, Transaction(db, t).work.number);
             && v.id !in Ids(Visible(db, t))
             && txn' == Transaction(db, t).(pending := Transaction(db, t).pending + [v], work := Idle)
    ensures TxnHolds(db.committed, txn')
  {
    var txn := Transaction(db, t);
    TransactionHolds(db, t);
    var v := Row(txn.work.r, txn.work.number);
    var visible := Visible(db, t);
    assert v.slot.project in txn.locks;
    assert Sound(visible + [v]) by {
      hide Sound, Inv, RequiredToken, Count, HasRow, Ids;
      SoundAppend(visible, v);
    }
    hide *;
    PendingExtends(db.committed, txn, v, txn');
  }

  lemma InsertKeepsInv(db: Db, t: nat)
    requires Inv(db)
    ensures Inv(Apply(db, Insert(t)))
  {
    var txn := Transaction(db, t);
    TransactionHolds(db, t);
    hide Sound, Inv, RequiredToken, Count, HasRow, SlotNumberIn;
    if txn.work.Numbered? && Buildable(txn.work.r) {
      if InsertResult(db, t, Row(txn.work.r, txn.work.number)) == Inserted {
        var txn' := Apply(db, Insert(t)).txns[t];
        InsertedRowHolds(db, t, txn');
        InsertedStaysApart(db, t, Row(txn.work.r, txn.work.number), txn');
        ChangedTxnKeepsInv(db, t, txn');
      }
    } else if txn.work.Numbered? {
      ChangedTxnKeepsInv(db, t, txn.(work := Idle));
    }
  }

  lemma StepKeepsInv(db: Db, step: Step)
    requires Inv(db)
    ensures Inv(Apply(db, step))
  {
    hide Sound, Apart;
    var txn := Transaction(db, step.t);
    TransactionHolds(db, step.t);
    match step
    case Check(t, r) =>
      if Apply(db, step) != db {
        CheckedApart(db, t, txn.(work := Checked(r)));
        ChangedTxnKeepsInv(db, t, txn.(work := Checked(r)));
      }
    case Lock(t) =>
      if txn.work.Checked? {
        LockKeepsInv(db, t);
      }
    case ReadMax(t) =>
      if txn.work.Locked? {
        var txn' := Apply(db, step).txns[t];
        SoundIsDense(Visible(db, t));
        MaxIsCount(Visible(db, t), SlotOf(txn.work.r));
        CheckedApart(db, t, txn');
        ChangedTxnKeepsInv(db, t, txn');
      }
    case Insert(t) => InsertKeepsInv(db, t);
    case Commit(t) => CommitKeepsInv(db, t);
    case Rollback(t) =>
  }

  lemma SoundIsDense(log: Log)
    requires Sound(log)
    ensures Dense(log)
  {
  }

  lemma CheckedApart(db: Db, t: nat, txn: Txn)
    requires Inv(db) && txn.locks == Transaction(db, t).locks && txn.pending == Transaction(db, t).pending
    ensures forall u <- db.txns :: u != t ==> Apart(txn, db.txns[u])
  {
    TransactionHolds(db, t);
  }

  lemma LockKeepsInv(db: Db, t: nat)
    requires Inv(db) && Transaction(db, t).work.Checked?
    ensures Inv(Apply(db, Lock(t)))
  {
    var txn := Transaction(db, t);
    TransactionHolds(db, t);
    if LockFree(db, t, txn.work.r.project) {
      ChangedTxnKeepsInv(db, t, Apply(db, Lock(t)).txns[t]);
    }
  }

  /** Every interleaving of any number of publish transactions keeps the invariant. */
  lemma {:induction false} RunKeepsInv(db: Db, steps: seq<Step>)
    requires Inv(db)
    ensures Inv(Run(db, steps))
    decreases |steps|
  {
    if steps != [] {
      hide Inv, Apply;
      StepKeepsInv(db, steps[0]);
      RunKeepsInv(Apply(db, steps[0]), steps[1..]);
    }
  }

  // ----- what the invariant means to a reader of the table

  function Numbers(log: Log, slot: Slot): seq<int> {
    if log == [] then []
    else Numbers(log[..|log| - 1], slot) + if log[|log| - 1].slot == slot then [log[|log| - 1].number] else []
  }

  lemma {:induction false} DenseNumbers(log: Log, slot: Slot)
    requires Dense(log)
    ensures Numbers(log, slot) == seq(Count(log, slot), i => i + 1)
  {
    if log != [] {
      DensePrefix(log, |log| - 1);
      DenseNumbers(log[..|log| - 1], slot);
    }
  }

  /** Whatever the interleaving, the committed numbers of each (project, type, key) are 1, 2, .. n in the order
      the rows were committed, with no gap and no repetition. */
  lemma CommittedNumbersAreGapFree(db: Db, steps: seq<Step>, slot: Slot)
    requires Inv(db)
    ensures var log := Run(db, steps).committed;
            Numbers(log, slot) == seq(Count(log, slot), i => i + 1)
  {
    RunKeepsInv(db, steps);
    DenseNumbers(Run(db, steps).committed, slot);
  }

  /** `path` follows parent links upward from `path[0]`. */
  ghost predicate ParentPath(log: Log, path: seq<nat>) {
    && (forall k :: 0 <= k < |path| ==> path[k] < |log|)
    && forall k :: 0 <= k < |path| - 1 ==> log[path[k]].parent == Some(log[path[k + 1]].id)
  }

  lemma ParentIsEarlier(log: Log, child: nat, parent: nat)
    requires Sound(log) && child < |log| && parent < |log|
    requires log[child].parent == Some(log[parent].id)
    ensures parent < child && log[parent].slot.project == log[child].slot.project
  {
    var v :| v in log[..child] && v.id == log[parent].id && v.slot.project == log[child].slot.project;
    var i :| 0 <= i < child && log[..child][i] == v;
    assert log[i].id == log[parent].id;
  }

  /** Every walk along parent links stays in its project and is no longer than the row's position: it ends. */
  lemma {:induction false} LineageEnds(log: Log, path: seq<nat>)
    requires Sound(log) && ParentPath(log, path) && path != []
    ensures |path| <= path[0] + 1
    ensures forall k :: 0 <= k < |path| ==> log[path[k]].slot.project == log[path[0]].slot.project
  {
    if |path| > 1 {
      ParentIsEarlier(log, path[0], path[1]);
      LineageEnds(log, path[1..]);
      assert path == [path[0]] + path[1..];
    }
  }

  lemma CommittedLineagesEnd(db: Db, steps: seq<Step>, path: seq<nat>)
    requires Inv(db) && ParentPath(Run(db, steps).committed, path)
    ensures |path| <= |Run(db, steps).committed|
  {
    RunKeepsInv(db, steps);
    if path != [] {
      LineageEnds(Run(db, steps).committed, path);
    }
  }

  // ----- reading published versions

  /** The published rows of a slot, newest first. */
  function ListPublished(log: Log, slot: Slot): (r: seq<Version>)
    ensures forall v :: v in r <==> v in log && v.slot == slot && v.status in PUBLISHED_STATUSES
  {
    if log == [] then []
    else
      var last := log[|log| - 1];
      var rest := ListPublished(log[..|log| - 1], slot);
      assert log == log[..|log| - 1] + [last];
      if last.slot == slot && last.status in PUBLISHED_STATUSES then [last] + rest else rest
  }

  function LatestPublished(log: Log, slot: Slot): Option<Version> {
    var all := ListPublished(log, slot);
    if all == [] then None else Some(all[0])
  }

  /** Newest-first is the query's descending order of version numbers, which never ties. */
  lemma {:induction false} ListingDescends(log: Log, slot: Slot)
    requires Dense(log)
    ensures Descends(ListPublished(log, slot))
  {
    if log != [] {
      var before, last := log[..|log| - 1], log[|log| - 1];
      DensePrefix(log, |log| - 1);
      ListingDescends(before, slot);
      var rest := ListPublished(before, slot);
      forall v <- rest ensures v.slot == last.slot ==> v.number < last.number {
        NumbersAreAtMostCount(before, v);
      }
      hide Dense;
      DescendsCons(last, rest);
    }
  }

  ghost predicate Descends(r: seq<Version>) {
    forall i, j :: 0 <= i < j < |r| ==> r[i].number > r[j].number
  }

  lemma DescendsCons(v: Version, rest: seq<Version>)
    requires Descends(rest)
    ensures (forall w <- rest :: w.number < v.number) ==> Descends([v] + rest)
  {
    assert forall i :: 0 <= i < |rest| ==> rest[i] in rest;
  }

  lemma {:induction false} ListingAppend(a: Log, b: Log, slot: Slot)
    ensures ListPublished(a + b, slot) == ListPublished(b, slot) + ListPublished(a, slot)
  {
    if b == [] {
      assert a + b == a;
    } else {
      assert (a + b)[..|a + b| - 1] == a + b[..|b| - 1];
      ListingAppend(a, b[..|b| - 1], slot);
    }
  }

  /** The latest published version of a slot is a published row of it, and none has a higher number. */
  lemma LatestIsHighest(log: Log, slot: Slot)
    requires Dense(log)
    ensures LatestPublished(log, slot).None? <==>
            forall v <- log :: v.slot == slot ==> v.status != "published" && v.status != "ready"
    ensures LatestPublished(log, slot).Some? ==>
              var latest := LatestPublished(log, slot).value;
              && latest in log && latest.slot == slot && (latest.status == "published" || latest.status == "ready")
              && forall v <- log :: v.slot == slot && (v.status == "published" || v.status == "ready") ==>
                   v == latest || v.number < latest.number
  {
    ListingDescends(log, slot);
    var listed := ListPublished(log, slot);
    if listed != [] {
      assert listed[0] in listed;
      forall v <- listed ensures v == listed[0] || v.number < listed[0].number {
        var i :| 0 <= i < |listed| && listed[i] == v;
      }
    }
    hide Dense, Descends;
    assert forall v <- log :: v.slot == slot && v.status in PUBLISHED_STATUSES ==> v in listed;
  }

  /** Once a transaction commits, the last version it published in a slot is what readers get as the latest. */
  lemma CommitMakesLatest(db: Db, t: nat, v: Version)
    requires v.status in PUBLISHED_STATUSES
    requires Transaction(db, t).pending != [] && Transaction(db, t).pending[|Transaction(db, t).pending| - 1] == v
    ensures LatestPublished(Apply(db, Commit(t)).committed, v.slot) == Some(v)
  {
    ListingAppend(db.committed, Transaction(db, t).pending, v.slot);
  }

  // ----- the service

  /** What is checked before the project is locked. */
  predicate Checks(db: Db, t: nat, r: Request) {
    Validates(r) && (r.parent.Some? ==> HasRow(Visible(db, t), r.parent.value, r.project))
  }

  /** What the database demands of the row once the project is locked. */
  predicate Admitted(db: Db, t: nat, r: Request)
    requires Validates(r) && Buildable(r)
  {
    && r.id !in Ids(Visible(db, t)) && !LinkIn(Visible(db, t), LegacyLink(r)) && Distinct(NormalTypes(r))
    && (db.strict ==> FitsColumns(Row(r, 1)))
  }

  /** One request's database session. The database it talks to is shared; `t` is its open transaction. */
  class AssetVersionService {
    var db: Db
    const t: nat

    constructor (db: Db, t: nat)
      ensures this.db == db && this.t == t
    {
      this.db, this.t := db, t;
    }

    method CheckRequest(r: Request) returns (valid: bool)
      requires Transaction(db, t).work.Idle?
      modifies this
      ensures db == Apply(old(db), Check(t, r))
      ensures valid <==> Checks(old(db), t, r)
      ensures if valid then Validates(r) && db == WithTxn(old(db), t, Transaction(old(db), t).(work := Checked(r)))
              else db == old(db)
    {
      hide RequiredToken, HasRow;
      valid := Validates(r) && (r.parent.Some? ==> HasRow(Visible(db, t), r.parent.value, r.project));
      if valid {
        db := WithTxn(db, t, Transaction(db, t).(work := Checked(r)));
      }
    }

    /** SELECT .. FOR UPDATE on the project row; the caller has waited until no other transaction holds it. */
    method LockProject(r: Request) returns (found: bool)
      requires NothingToWaitFor(db, t, r) && Transaction(db, t).work == Checked(r)
      modifies this
      ensures db == Apply(old(db), Lock(t))
      ensures found == (r.project in old(db).projects)
      ensures var txn := Transaction(old(db), t);
              db == WithTxn(old(db), t,
                            if found then txn.(locks := txn.locks + {r.project}, work := Locked(r))
                            else txn.(work := Idle))
    {
      var txn := Transaction(db, t);
      found := r.project in db.projects;
      if !found {
        db := WithTxn(db, t, txn.(work := Idle));
      } else {
        db := WithTxn(db, t, txn.(locks := txn.locks + {r.project}, work := Locked(r)));
      }
    }

    method ReadNumber(r: Request) returns (number: int)
      requires Validates(r) && Transaction(db, t).work == Locked(r)
      modifies this
      ensures number == NextVersionNumber(Visible(old(db), t), SlotOf(r))
      ensures db == Apply(old(db), ReadMax(t))
      ensures db == WithTxn(old(db), t, Transaction(old(db), t).(work := Numbered(r, number)))
    {
      hide RequiredToken;
      number := NextVersionNumber(Visible(db, t), SlotOf(r));
      db := WithTxn(db, t, Transaction(db, t).(work := Numbered(r, number)));
    }

    /** Builds the row and flushes it: what the table's constraints refuse ends the transaction. */
    method Flush(r: Request, number: int) returns (result: Result<Version, Error>)
      requires Validates(r) && Transaction(db, t).work == Numbered(r, number)
      requires !Buildable(r) || InsertResult(db, t, Row(r, number)) != Waits
      modifies this
      ensures db == Apply(old(db), Insert(t))
      ensures result == Err(InvalidAssetVersion) <==> !Buildable(r)
      ensures result.Ok? <==> Buildable(r) && InsertResult(old(db), t, Row(r, number)) == Inserted
      ensures result.Err? ==> result.error == InvalidAssetVersion || result.error == DatabaseError
      ensures result.Ok? ==>
                && result.value == Row(r, number)
                && Transaction(db, t) ==
                   Transaction(old(db), t).(pending := Transaction(old(db), t).pending + [result.value], work := Idle)
      ensures result.Err? ==>
                Transaction(db, t) == if result.error == DatabaseError then FRESH_TXN
                  else Transaction(old(db), t).(work := Idle)
    {
      hide InsertResult;
      var txn := Transaction(db, t);
      if !Buildable(r) {
        db := WithTxn(db, t, txn.(work := Idle));
        return Err(InvalidAssetVersion);
      }
      var version := Row(r, number);
      if InsertResult(db, t, version) == Inserted {
        db := WithTxn(db, t, txn.(pending := txn.pending + [version], work := Idle));
        return Ok(version);
      }
      db := Aborted(db, t);
      return Err(DatabaseError);
    }

    /** A publish call whose statements are not interrupted and do not have to wait: nobody else holds the
        project row or is inserting the same row id. */
    method Publish(r: Request) returns (result: Result<Version, Error>)
      requires Inv(db) && Transaction(db, t).work.Idle? && NothingToWaitFor(db, t, r)
      modifies this
      ensures db == Run(old(db), [Check(t, r), Lock(t), ReadMax(t), Insert(t)])
      ensures result.Ok? <==>
                Checks(old(db), t, r) && r.project in old(db).projects && Buildable(r) && Admitted(old(db), t, r)
      ensures result == Err(InvalidAssetVersion) <==>
                !Checks(old(db), t, r) || (r.project in old(db).projects && !Buildable(r))
      ensures result == Err(ProjectNotFound) <==> Checks(old(db), t, r) && r.project !in old(db).projects
      ensures Inv(db) && db.committed == old(db).committed
      ensures result.Ok? ==>
                var v := result.value;
                && Transaction(db, t).pending == Transaction(old(db), t).pending + [v]
                && Validates(r) && v.slot == SlotOf(r) && r.project in Transaction(db, t).locks
                && v.number == Count(Visible(old(db), t), v.slot) + 1
                && v.parent == r.parent && v.id == r.id && v.status == r.status && v.legacy == LegacyLink(r)
                && Buildable(r) && v == Row(r, v.number)
      ensures result == Err(InvalidAssetVersion) || result == Err(ProjectNotFound) ==>
                Transaction(db, t).pending == Transaction(old(db), t).pending
      ensures result == Err(DatabaseError) ==> Transaction(db, t) == FRESH_TXN
    {
      hide *;
      RunKeepsInv(db, [Check(t, r), Lock(t), ReadMax(t), Insert(t)]);
      FourSteps(db, Check(t, r), Lock(t), ReadMax(t), Insert(t));
      ghost var start := db;
      StepKeepsInv(db, Check(t, r));
      var valid := CheckRequest(r);
      ChecksValidate(start, t, r);
      if !valid {
        IdleStaysPut(db, t);
        return Err(InvalidAssetVersion);
      }
      WithTxnHolds(start, t, Transaction(start, t).(work := Checked(r)));
      OwnChangesDoNotWait(start, t, r, Transaction(start, t).(work := Checked(r)));
      StepKeepsInv(db, Lock(t));
      ghost var beforeLock := db;
      var found := LockProject(r);
      if !found {
        WithTxnHolds(beforeLock, t, Transaction(beforeLock, t).(work := Idle));
        IdleStaysPut(db, t);
        return Err(ProjectNotFound);
      }
      ghost var txn := Transaction(beforeLock, t);
      ghost var lockedTxn := txn.(locks := txn.locks + {r.project}, work := Locked(r));
      WithTxnHolds(beforeLock, t, lockedTxn);
      OwnChangesDoNotWait(beforeLock, t, r, lockedTxn);
      SameVisible(start, db, t);
      AdmittedSame(start, db, t, r);
      OnlyCommitsCommit(db, ReadMax(t));
      OnlyCommitsCommit(Apply(db, ReadMax(t)), Insert(t));
      result := PublishLocked(r);
    }

    /** The part of a publish call after its project row is locked. */
    method PublishLocked(r: Request) returns (result: Result<Version, Error>)
      requires Inv(db) && Validates(r) && Transaction(db, t).work == Locked(r) && NothingToWaitFor(db, t, r)
      modifies this
      ensures db == Apply(Apply(old(db), ReadMax(t)), Insert(t))
      ensures result.Ok? <==> Buildable(r) && Admitted(old(db), t, r)
      ensures result == Err(InvalidAssetVersion) <==> !Buildable(r)
      ensures result != Err(ProjectNotFound)
      ensures result.Ok? ==>
                var v := result.value;
                && v.slot == SlotOf(r) && v.parent == r.parent && v.id == r.id && v.status == r.status
                && v.legacy == LegacyLink(r) && Buildable(r) && v == Row(r, v.number)
                && v.number == Count(Visible(old(db), t), v.slot) + 1
                && Transaction(db, t) ==
                   Transaction(old(db), t).(pending := Transaction(old(db), t).pending + [v], work := Idle)
      ensures result.Err? ==>
                Transaction(db, t) == if result.error == DatabaseError then FRESH_TXN
                  else Transaction(old(db), t).(work := Idle)
    {
      hide Inv, RequiredToken, Buildable, Validates, Apply, InsertResult, NextVersionNumber, HasRow, Count, Ids,
        NothingToWaitFor, LockFree;
      StepKeepsInv(db, ReadMax(t));
      ghost var locked := db;
      NextIsCount(db, t, SlotOf(r));
      var number := ReadNumber(r);
      OwnChangesDoNotWait(locked, t, r, Transaction(db, t));
      if Buildable(r) {
        LockedInsertDecides(db, t);
        AdmittedBefore(locked, db, t, r, number);
      }
      result := Flush(r, number);
    }
  }

  lemma AdmittedSame(before: Db, after: Db, t: nat, r: Request)
    requires Validates(r) && Visible(before, t) == Visible(after, t) && before.strict == after.strict
    ensures Buildable(r) ==> (Admitted(before, t, r) <==> Admitted(after, t, r))
  {
    hide RequiredToken;
  }

  lemma ChecksValidate(db: Db, t: nat, r: Request)
    ensures Checks(db, t, r) ==> Validates(r)
  {
  }

  lemma AdmittedBefore(before: Db, after: Db, t: nat, r: Request, number: int)
    requires Validates(r) && Buildable(r) && Visible(before, t) == Visible(after, t) && before.strict == after.strict
    ensures Admitted(before, t, r) <==>
            && r.id !in Ids(Visible(after, t)) && !LinkIn(Visible(after, t), LegacyLink(r)) && Distinct(NormalTypes(r))
            && (after.strict ==> FitsColumns(Row(r, number)))
  {
    hide RequiredToken;
  }

  lemma OnlyCommitsCommit(db: Db, step: Step)
    requires !step.Commit?
    ensures Apply(db, step).committed == db.committed
  {
    hide InsertResult, Validates, Buildable, RequiredToken;
  }

  lemma WithTxnHolds(db: Db, t: nat, txn: Txn)
    ensures Transaction(WithTxn(db, t, txn), t) == txn && WithTxn(db, t, txn).committed == db.committed
    ensures WithTxn(db, t, txn).projects == db.projects && WithTxn(db, t, txn).strict == db.strict
  {
  }

  lemma SameVisible(before: Db, after: Db, t: nat)
    requires before.committed == after.committed && Transaction(before, t).pending == Transaction(after, t).pending
    ensures Visible(before, t) == Visible(after, t)
  {
  }

  lemma IdleStaysPut(db: Db, t: nat)
    requires Transaction(db, t).work.Idle?
    ensures Apply(db, Lock(t)) == Apply(db, ReadMax(t)) == Apply(db, Insert(t)) == db
  {
  }

  lemma NextIsCount(db: Db, t: nat, slot: Slot)
    requires Inv(db)
    ensures NextVersionNumber(Visible(db, t), slot) == Count(Visible(db, t), slot) + 1
  {
    TransactionHolds(db, t);
    MaxIsCount(Visible(db, t), slot);
  }

  /** With the project locked, the version number never clashes: only a row id, a legacy link, a repeated file type or a
      text longer than its column can stop the insert. */
  lemma LockedInsertDecides(db: Db, t: nat)
    requires Inv(db) && Transaction(db, t).work.Numbered? && Buildable(Transaction(db, t).work.r)
    requires Validates(Transaction(db, t).work.r) && NothingToWaitFor(db, t, Transaction(db, t).work.r)
    ensures var r := Transaction(db, t).work.r;
            var outcome := InsertResult(db, t, Row(r, Transaction(db, t).work.number));
            && (outcome == Inserted <==>
                  && r.id !in Ids(Visible(db, t)) && !LinkIn(Visible(db, t), LegacyLink(r)) && Distinct(NormalTypes(r))
                  && (db.strict ==> FitsColumns(Row(r, Transaction(db, t).work.number))))
            && outcome != Waits && outcome != NumberTaken
  {
    LockedNumberIsFree(db, t);
    hide Inv, SlotNumberIn, Ids, LinkIn, RequiredToken, Distinct, FitsColumns;
  }

  lemma FourSteps(db: Db, a: Step, b: Step, c: Step, d: Step)
    ensures Run(db, [a, b, c, d]) == Apply(Apply(Apply(Apply(db, a), b), c), d)
  {
    hide Apply;
    assert [a, b, c, d][1..] == [b, c, d] && [b, c, d][1..] == [c, d] && [c, d][1..] == [d] && [d][1..] == [];
    assert Run(Apply(Apply(Apply(db, a), b), c), [d]) == Apply(Apply(Apply(Apply(db, a), b), c), d);
    assert Run(Apply(Apply(db, a), b), [c, d]) == Run(Apply(Apply(Apply(db, a), b), c), [d]);
  }
}
