/** The manifest as bytes: encoded version edits in the log format
    (db/version_edit.cc, VersionSet::Recover). */
module ManifestBytes {
  import opened Keys
  import opened Coding
  import opened Bytewise
  import opened Versions
  import opened Manifest
  import opened RecordFiles
  import IK = InternalKeys
  import VE = VersionEdits
  import L = Log

  // ----- edits as the engine knows them

  /** The engine's key of an encoded internal key. */
  function KeyOf(key: Bytes): Key {
    match IK.Parse(key)
    case None => Key(0.0, 0, Deletion)
    case Some(p) => Key(RankOf(p.user), p.seqno, p.kind)
  }

  lemma KeyOfEncoded(user: Bytes, seqno: nat, kind: Kind)
    requires seqno <= MAX_SEQUENCE
    ensures KeyOf(IK.Encode(user, seqno, kind)) == Key(RankOf(user), seqno, kind)
  {
    hide IK.Parse; hide RankOf; hide IK.Encode;
    IK.ParseEncode(user, seqno, kind);
  }

  function FileOf(a: VE.Added): File {
    File(a.n, KeyOf(a.smallest), KeyOf(a.largest))
  }

  function DeletedAt(e: VE.Edit, l: nat): set<nat> {
    set g | g in e.deleted && g.level == l :: g.n
  }

  function AddedAt(e: VE.Edit, l: nat): Level {
    set a | a in e.added && a.level == l :: FileOf(a)
  }

  function OrZero(o: Option<nat>): nat {
    if o.Some? then o.value else 0
  }

  function EditOf(e: VE.Edit): Edit {
    Record(OrZero(e.log), OrZero(e.nextFile), OrZero(e.lastSeq),
           seq(NUM_LEVELS, l requires 0 <= l < NUM_LEVELS => DeletedAt(e, l)),
           seq(NUM_LEVELS, l requires 0 <= l < NUM_LEVELS => AddedAt(e, l)))
  }

  // ----- edits as records

  /** An edit and the order in which its set of deletions is written out. */
  datatype Written = Written(edit: VE.Edit, order: seq<VE.Gone>)

  ghost predicate WrittenOk(comparator: Bytes, w: Written) {
    && VE.EditOk(w.edit) && VE.Lists(w.order, w.edit.deleted)
    && (w.edit.comparator.Some? ==> w.edit.comparator.value == comparator)
  }

  function RepOf(w: Written): Bytes {
    VE.EncodeAll(VE.Items(w.edit, w.order))
  }

  /** A record decoded into a fresh edit; another comparator's is refused. */
  function ParseEdit(comparator: Bytes): Bytes -> Option<Edit> {
    (record: Bytes) =>
      match VE.Decode(VE.FRESH, record)
      case None => None
      case Some(e) => if e.comparator.Some? && e.comparator.value != comparator then None else Some(EditOf(e))
  }

  lemma OneEdit(comparator: Bytes, w: Written)
    requires WrittenOk(comparator, w)
    ensures ParseEdit(comparator)(RepOf(w)) == Some(EditOf(w.edit))
  {
    hide VE.EncodeAll; hide VE.Items; hide VE.EditOk; hide VE.Decode; hide EditOf;
    VE.EditRoundTrip(VE.FRESH, w.edit, w.order);
    assert VE.FRESH.pointers + w.edit.pointers == w.edit.pointers;
    assert w.edit.(pointers := w.edit.pointers) == w.edit;
  }

  function Reps(ws: seq<Written>): seq<Bytes> {
    seq(|ws|, i requires 0 <= i < |ws| => RepOf(ws[i]))
  }

  function EditsOf(ws: seq<Written>): seq<Edit> {
    seq(|ws|, i requires 0 <= i < |ws| => EditOf(ws[i].edit))
  }

  ghost predicate AllWritten(comparator: Bytes, ws: seq<Written>) {
    forall i :: 0 <= i < |ws| ==> WrittenOk(comparator, ws[i])
  }

  lemma EditsMeant(comparator: Bytes, ws: seq<Written>)
    requires AllWritten(comparator, ws)
    ensures Means(ParseEdit(comparator), Reps(ws), EditsOf(ws))
  {
    hide ParseEdit; hide RepOf; hide EditOf; hide WrittenOk;
    forall i | 0 <= i < |ws|
      ensures ParseEdit(comparator)(Reps(ws)[i]) == Some(EditsOf(ws)[i])
    {
      OneEdit(comparator, ws[i]);
    }
  }

  // ----- the manifest file

  ghost predicate HoldsEdits(comparator: Bytes, file: Bytes, edits: seq<Edit>, ws: seq<Written>) {
    AllWritten(comparator, ws) && EditsOf(ws) == edits && file == L.File(Reps(ws))
  }

  function ReadManifest(comparator: Bytes, file: Bytes): Option<seq<Edit>> {
    ReadFile(ParseEdit(comparator), file)
  }

  lemma WholeManifest(comparator: Bytes, file: Bytes, edits: seq<Edit>, ws: seq<Written>)
    requires HoldsEdits(comparator, file, edits, ws)
    ensures ReadManifest(comparator, file) == Some(edits)
  {
    hide ReadFile; hide L.File; hide Reps; hide ParseEdit; hide AllWritten; hide Means;
    EditsMeant(comparator, ws);
    WholeFile(ParseEdit(comparator), Reps(ws), EditsOf(ws));
  }

  /** A manifest that ends inside the edit being appended is the one before the
      edit or the one with it. */
  lemma TornManifest(comparator: Bytes, before: Bytes, after: Bytes, torn: Bytes, edits: seq<Edit>, ws: seq<Written>, w: Written)
    requires HoldsEdits(comparator, before, edits, ws) && WrittenOk(comparator, w) && after == L.File(Reps(ws + [w]))
    requires before <= torn <= after
    ensures ReadManifest(comparator, torn) == Some(edits) || ReadManifest(comparator, torn) == Some(edits + [EditOf(w.edit)])
  {
    RepsAppend(ws, w);
    hide ReadFile; hide L.File; hide Reps; hide ParseEdit; hide AllWritten; hide Means; hide WrittenOk; hide EditOf;
    EditsMeant(comparator, ws);
    OneEdit(comparator, w);
    TornFile(ParseEdit(comparator), Reps(ws), EditsOf(ws), RepOf(w), EditOf(w.edit), torn);
  }

  lemma RepsAppend(ws: seq<Written>, w: Written)
    ensures Reps(ws + [w]) == Reps(ws) + [RepOf(w)] && EditsOf(ws + [w]) == EditsOf(ws) + [EditOf(w.edit)]
  {
    hide RepOf; hide EditOf;
    assert forall i :: 0 <= i < |ws| ==> (ws + [w])[i] == ws[i];
  }

  lemma HoldsMore(comparator: Bytes, file: Bytes, edits: seq<Edit>, ws: seq<Written>, w: Written)
    requires HoldsEdits(comparator, file, edits, ws) && WrittenOk(comparator, w)
    ensures HoldsEdits(comparator, L.File(Reps(ws + [w])), edits + [EditOf(w.edit)], ws + [w])
  {
    RepsAppend(ws, w);
    hide L.File; hide Reps; hide EditOf; hide WrittenOk; hide EditsOf;
  }
}
