/**
 The H-U row: the guest grades its own host, prints the grades and the facts behind them, and
 the host parses the print-out and grades the facts again. Anything that does not agree is STOP.
 */
module HuTranscript {
  import opened PyJson
  import opened Texts

  datatype Key =
    | Mounts | MountsReadable | CursorStores | CredentialPaths | CredentialHits | SigningKey | SigningHits
    | TrustDocs | TrustNonprod | TrustUnreadable | BundleNamesClean | ExpectTrust | NoneStaged | SignerKidNull | ErrorKey
    | MountKey | FsType
    | Schema | Facts | Verdict | Items | Name | ResultKey | SignerKid | Present
    | Other(name: string)

  type Val = Value<Key>
  type Fields = map<Key, Val>

  const MAX_JSON: nat := 65536
  const MAX_TEXT: nat := 200000
  const MAX_MOUNTS: nat := 256
  const SCHEMA: string := "vantio.lab.host-evidence.h-u/v1"

  datatype Item = MountsItem | CursorItem | CredentialItem | SigningItem | TrustItem | SignerItem

  const ITEMS: seq<Item> := [MountsItem, CursorItem, CredentialItem, SigningItem, TrustItem, SignerItem]

  // ----- cleaning -----

  predicate PathChar(c: char) { IsAlnum(c) || c == '.' || c == '_' || c == '+' || c == '/' || c == '-' }

  predicate IsMount(s: string) { s != "" && s[0] == '/' && AllChars(s[1..], 0, 200, PathChar) }

  predicate IsPath(s: string) { s != "" && s[0] == '/' && AllChars(s[1..], 1, 200, PathChar) }

  predicate IsFsType(s: string) { AllChars(s, 1, 32, c => IsAlnum(c) || c == '_' || c == '-') }

  /** A mount row with a name, a type and nothing else. */
  predicate MountOk(v: Val) {
    && v.Dict? && Get(v.fields, MountKey).Str? && Get(v.fields, FsType).Str?
    && IsMount(Get(v.fields, MountKey).s) && IsFsType(Get(v.fields, FsType).s)
    && v.fields.Keys <= {MountKey, FsType}
  }

  /** All rows or none: one bad row empties the list. */
  function CleanMounts(v: Val): (rows: seq<Val>)
    ensures forall i | 0 <= i < |rows| :: MountOk(rows[i])
  {
    if v.List? && |v.items| <= MAX_MOUNTS && forall i | 0 <= i < |v.items| :: MountOk(v.items[i]) then v.items else []
  }

  /** The loop that rebuilds the rows one by one. */
  method CleanMountsLoop(v: Val) returns (rows: seq<Val>)
    ensures rows == CleanMounts(v)
  {
    if !v.List? || |v.items| > MAX_MOUNTS {
      return [];
    }
    rows := [];
    for i := 0 to |v.items|
      invariant rows == v.items[..i] && forall j | 0 <= j < i :: MountOk(v.items[j])
    {
      var item := v.items[i];
      if !MountOk(item) {
        return [];
      }
      var row := map[FsType := Get(item.fields, FsType), MountKey := Get(item.fields, MountKey)];
      assert row == item.fields;
      rows := rows + [Dict(row)];
    }
  }

  lemma CleanMountsStable(v: Val)
    ensures CleanMounts(List(CleanMounts(v))) == CleanMounts(v)
  {
  }

  const STORES: string := "/cursor/stores"

  predicate CursorMounted(rows: seq<Val>) {
    exists i | 0 <= i < |rows| ::
      && rows[i].Dict? && Get(rows[i].fields, MountKey).Str?
      && var mount := Get(rows[i].fields, MountKey).s; mount == STORES || STORES + "/" <= mount
  }

  function TextItems(items: seq<Val>): seq<string> {
    if items == [] then [] else if items[0].Str? then [items[0].s] + TextItems(items[1..]) else TextItems(items[1..])
  }

  function Hits(v: Val): seq<string> {
    if v == Null then [] else if v.List? then TextItems(v.items) else ["bad"]
  }

  function SafePaths(paths: seq<string>): (kept: seq<string>)
    ensures forall i | 0 <= i < |kept| :: IsPath(kept[i])
  {
    if paths == [] then [] else if IsPath(paths[0]) then [paths[0]] + SafePaths(paths[1..]) else SafePaths(paths[1..])
  }

  lemma {:induction false} SafePathsStable(paths: seq<string>)
    requires forall i | 0 <= i < |paths| :: IsPath(paths[i])
    ensures SafePaths(paths) == paths
  {
    if paths != [] {
      SafePathsStable(paths[1..]);
    }
  }

  function AsTexts(paths: seq<string>): seq<Val> { seq(|paths|, i requires 0 <= i < |paths| => Str(paths[i])) }

  lemma {:induction false} TextsOfTexts(paths: seq<string>)
    ensures TextItems(AsTexts(paths)) == paths && Hits(List(AsTexts(paths))) == paths
  {
    if paths != [] {
      assert AsTexts(paths)[1..] == AsTexts(paths[1..]);
      TextsOfTexts(paths[1..]);
    }
  }

  // ----- the grade -----

  datatype Results = Results(mounts: bool, cursor: bool, credential: bool, signing: bool, trust: bool, signer: bool) {
    predicate All() { mounts && cursor && credential && signing && trust && signer }
  }

  function ResultOf(r: Results, item: Item): bool {
    match item
    case MountsItem => r.mounts
    case CursorItem => r.cursor
    case CredentialItem => r.credential
    case SigningItem => r.signing
    case TrustItem => r.trust
    case SignerItem => r.signer
  }

  /** The public row. `pass` is its verdict; `present` lists the paths that should not be there. */
  datatype Row = Row(results: Results, mounts: seq<Val>, pass: bool, noneStaged: bool, present: seq<string>)

  predicate ExpectsNone(body: Fields) { Get(body, ExpectTrust) == Str("none") }

  predicate TrustOk(body: Fields) {
    var docs := Get(body, TrustDocs);
    && Get(body, TrustUnreadable) != Bool(true) && docs.Int?
    && if ExpectsNone(body)
       then docs.n == 0 && Get(body, BundleNamesClean) == Bool(true) && Get(body, NoneStaged) == Bool(true)
       else docs.n >= 1 && Get(body, TrustNonprod) == Bool(true)
  }

  function GradeResults(body: Fields): Results {
    var mounts := CleanMounts(Get(body, Mounts));
    Results(
      Get(body, MountsReadable) == Bool(true) && mounts != [],
      Get(body, CursorStores) == Str("absent") && !CursorMounted(mounts),
      Get(body, CredentialPaths) == Str("absent") && Hits(Get(body, CredentialHits)) == [],
      Get(body, SigningKey) == Str("absent") && Hits(Get(body, SigningHits)) == [],
      TrustOk(body),
      Get(body, SignerKidNull) == Bool(true))
  }

  function PresentPaths(body: Fields): seq<string> {
    SafePaths(Hits(Get(body, CredentialHits)) + Hits(Get(body, SigningHits)))
  }

  function GradeBody(body: Fields): Row {
    var r := GradeResults(body);
    var present := PresentPaths(body);
    Row(r, if r.mounts then CleanMounts(Get(body, Mounts)) else [], r.All() && present == [],
        r.trust && ExpectsNone(body) && Get(body, NoneStaged) == Bool(true), present)
  }

  datatype Graded = Graded(row: Row) | TypeError

  /** Python looks the expectation up in a set, so an unhashable one is an exception. */
  function Grade(facts: Val): Graded {
    if Hashable(Get(AsDict(facts), ExpectTrust)) then Graded.Graded(GradeBody(AsDict(facts))) else TypeError
  }

  /** What every graded row is like. */
  predicate RowOk(row: Row) {
    && (forall i | 0 <= i < |row.mounts| :: MountOk(row.mounts[i])) && |row.mounts| <= MAX_MOUNTS
    && (row.results.mounts ==> row.mounts != [])
    && (row.noneStaged ==> row.results.trust)
    && (forall i | 0 <= i < |row.present| :: IsPath(row.present[i]))
    && (row.pass ==> row.results.All() && row.present == [])
  }

  lemma GradeOk(body: Fields)
    ensures RowOk(GradeBody(body))
  {
  }

  lemma {:induction false} TextsEmptyIff(items: seq<Val>)
    ensures TextItems(items) == [] <==> forall i | 0 <= i < |items| :: !items[i].Str?
  {
    if items != [] {
      TextsEmptyIff(items[1..]);
      assert forall i | 0 < i < |items| :: items[i] == items[1..][i - 1];
    }
  }

  /** Nothing was found: no value, or a list without any text in it. */
  predicate NothingFound(v: Val) { v == Null || (v.List? && forall i | 0 <= i < |v.items| :: !v.items[i].Str?) }

  lemma NoHitsIff(v: Val)
    ensures Hits(v) == [] <==> NothingFound(v)
  {
    if v.List? {
      TextsEmptyIff(v.items);
    }
  }

  /** A mount at or below the stores path. */
  ghost predicate OnStores(v: Val) {
    && v.Dict? && Get(v.fields, MountKey).Str?
    && (Get(v.fields, MountKey).s == "/cursor/stores" || "/cursor/stores/" <= Get(v.fields, MountKey).s)
  }

  /** A text of this first character and so many more of the others. */
  ghost predicate Rooted(s: string, least: int, most: int) {
    s != "" && s[0] == '/' && least <= |s| - 1 <= most && forall i | 1 <= i < |s| :: s[i] in UPPER + LOWER + DIGITS + "._+/-"
  }

  /** A row of a mount point and a file system type, with nothing else in it. */
  ghost predicate MountRow(v: Val) {
    && v.Dict? && v.fields.Keys == {MountKey, FsType} && v.fields[MountKey].Str? && v.fields[FsType].Str?
    && Rooted(v.fields[MountKey].s, 0, 200)
    && 1 <= |v.fields[FsType].s| <= 32 && forall c | c in v.fields[FsType].s :: c in UPPER + LOWER + DIGITS + "_-"
  }

  ghost predicate SoundMounts(v: Val) {
    v.List? && 0 < |v.items| <= 256 && forall row | row in v.items :: MountRow(row)
  }

  /** A mount at the stores path or below it. */
  ghost predicate HoldsStores(v: Val) {
    v.List? && exists row :: row in v.items && OnStores(row)
  }

  lemma PathChars(c: char)
    ensures PathChar(c) <==> c in UPPER + LOWER + DIGITS + "._+/-"
    ensures IsAlnum(c) || c == '_' || c == '-' <==> c in UPPER + LOWER + DIGITS + "_-"
  {
    AlnumIff(c);
  }

  lemma RootedIff(s: string)
    ensures IsMount(s) <==> Rooted(s, 0, 200)
    ensures IsPath(s) <==> Rooted(s, 1, 200)
  {
    if s != "" {
      var t := s[1..];
      forall i | 0 <= i < |t| ensures PathChar(t[i]) <==> s[i + 1] in UPPER + LOWER + DIGITS + "._+/-" {
        PathChars(t[i]);
      }
      assert forall i | 1 <= i < |s| :: s[i] == t[i - 1];
    }
  }

  lemma FsTypeIff(s: string)
    ensures IsFsType(s) <==> 1 <= |s| <= 32 && forall c | c in s :: c in UPPER + LOWER + DIGITS + "_-"
  {
    forall i | 0 <= i < |s| ensures IsAlnum(s[i]) || s[i] == '_' || s[i] == '-' <==> s[i] in UPPER + LOWER + DIGITS + "_-" {
      PathChars(s[i]);
    }
  }

  lemma MountRowIff(v: Val)
    ensures MountOk(v) <==> MountRow(v)
  {
    if v.Dict? && Get(v.fields, MountKey).Str? && Get(v.fields, FsType).Str? {
      RootedIff(Get(v.fields, MountKey).s);
      FsTypeIff(Get(v.fields, FsType).s);
    }
  }

  lemma CleanMountsIff(v: Val)
    ensures CleanMounts(v) == if SoundMounts(v) then v.items else []
  {
    if v.List? {
      forall i | 0 <= i < |v.items| ensures MountOk(v.items[i]) <==> MountRow(v.items[i]) {
        MountRowIff(v.items[i]);
      }
    }
  }

  /** What the six items ask for, each in the facts' own keys. */
  lemma ResultsIff(body: Fields)
    ensures var r := GradeResults(body);
            && (r.mounts <==> Get(body, MountsReadable) == Bool(true) && SoundMounts(Get(body, Mounts)))
            && (r.cursor <==>
                  Get(body, CursorStores) == Str("absent") && !(SoundMounts(Get(body, Mounts)) && HoldsStores(Get(body, Mounts))))
            && (r.credential <==> Get(body, CredentialPaths) == Str("absent") && NothingFound(Get(body, CredentialHits)))
            && (r.signing <==> Get(body, SigningKey) == Str("absent") && NothingFound(Get(body, SigningHits)))
            && (r.trust <==>
                  && Get(body, TrustUnreadable) != Bool(true) && Get(body, TrustDocs).Int?
                  && if Get(body, ExpectTrust) == Str("none")
                     then Get(body, TrustDocs).n == 0 && Get(body, BundleNamesClean) == Bool(true) && Get(body, NoneStaged) == Bool(true)
                     else Get(body, TrustDocs).n >= 1 && Get(body, TrustNonprod) == Bool(true))
            && (r.signer <==> Get(body, SignerKidNull) == Bool(true))
  {
    var v := Get(body, Mounts);
    CleanMountsIff(v);
    NoHitsIff(Get(body, CredentialHits));
    NoHitsIff(Get(body, SigningHits));
    if SoundMounts(v) {
      StoresIff(v.items);
    }
  }

  lemma StoresIff(rows: seq<Val>)
    ensures CursorMounted(rows) <==> exists row :: row in rows && OnStores(row)
  {
    if CursorMounted(rows) {
      var i :| 0 <= i < |rows| && OnStores(rows[i]);
    }
    if row :| row in rows && OnStores(row) {
      var i :| 0 <= i < |rows| && rows[i] == row;
    }
  }

  /** Exactly which facts pass. */
  lemma GradePassIff(body: Fields)
    ensures GradeBody(body).pass <==>
            && Get(body, MountsReadable) == Bool(true) && SoundMounts(Get(body, Mounts)) && !HoldsStores(Get(body, Mounts))
            && Get(body, CursorStores) == Str("absent")
            && Get(body, CredentialPaths) == Str("absent") && NothingFound(Get(body, CredentialHits))
            && Get(body, SigningKey) == Str("absent") && NothingFound(Get(body, SigningHits))
            && Get(body, TrustUnreadable) != Bool(true) && Get(body, TrustDocs).Int?
            && (if Get(body, ExpectTrust) == Str("none")
                then Get(body, TrustDocs).n == 0 && Get(body, BundleNamesClean) == Bool(true) && Get(body, NoneStaged) == Bool(true)
                else Get(body, TrustDocs).n >= 1 && Get(body, TrustNonprod) == Bool(true))
            && Get(body, SignerKidNull) == Bool(true)
  {
    ResultsIff(body);
    NoHitsIff(Get(body, CredentialHits));
    NoHitsIff(Get(body, SigningHits));
  }

  /** What else a graded row carries: the mounts that passed, the paths that were found, and the word on an empty store. */
  lemma RowIs(body: Fields)
    ensures var row, r := GradeBody(body), GradeResults(body);
            && row.results == r && (row.pass <==> r.All() && row.present == [])
            && row.mounts == (if r.mounts then Get(body, Mounts).items else [])
            && (row.noneStaged <==> r.trust && Get(body, ExpectTrust) == Str("none") && Get(body, NoneStaged) == Bool(true))
            && row.present == SafePaths(Hits(Get(body, CredentialHits)) + Hits(Get(body, SigningHits)))
  {
    ResultsIff(body);
    CleanMountsIff(Get(body, Mounts));
  }

  /** Safe paths are the ones of the right form, as often as they were found. */
  lemma {:induction false} SafePathsAre(paths: seq<string>, p: string)
    ensures multiset(SafePaths(paths))[p] == if Rooted(p, 1, 200) then multiset(paths)[p] else 0
  {
    if paths != [] {
      SafePathsAre(paths[1..], p);
      RootedIff(paths[0]);
      assert paths == [paths[0]] + paths[1..];
    }
  }

  lemma {:induction false} TextsAre(items: seq<Val>, s: string)
    ensures multiset(TextItems(items))[s] == multiset(items)[Str(s)]
  {
    if items != [] {
      TextsAre(items[1..], s);
      assert items == [items[0]] + items[1..];
    }
  }

  /** Both keep the order they were given. */
  lemma {:induction false} SafePathsAppend(a: seq<string>, b: seq<string>)
    ensures SafePaths(a + b) == SafePaths(a) + SafePaths(b)
  {
    if a == [] {
      assert a + b == b;
    } else {
      assert (a + b)[1..] == a[1..] + b;
      SafePathsAppend(a[1..], b);
    }
  }

  lemma {:induction false} TextsAppend(a: seq<Val>, b: seq<Val>)
    ensures TextItems(a + b) == TextItems(a) + TextItems(b)
  {
    if a == [] {
      assert a + b == b;
    } else {
      assert (a + b)[1..] == a[1..] + b;
      TextsAppend(a[1..], b);
    }
  }

  /** Found are the texts of a list; a value that is no list counts as one bad finding. */
  lemma HitsAre(v: Val)
    ensures Hits(v) == if v == Null then [] else if v.List? then TextItems(v.items) else ["bad"]
  {
  }

  // ----- the print-out -----

  function StateText(v: Val): Val {
    if v == Str("absent") || v == Str("present") then v else Str("unreadable")
  }

  function ExpectText(v: Val): Val { if v == Str("none") then v else Str("some") }

  function HitsPart(body: Fields): Fields {
    map[CredentialHits := List(AsTexts(SafePaths(Hits(Get(body, CredentialHits))))),
        SigningHits := List(AsTexts(SafePaths(Hits(Get(body, SigningHits)))))]
  }

  function StatePart(body: Fields): Fields {
    map[CredentialPaths := StateText(Get(body, CredentialPaths)),
        CursorStores := StateText(Get(body, CursorStores)),
        SigningKey := StateText(Get(body, SigningKey)),
        SignerKidNull := Bool(Get(body, SignerKidNull) == Bool(true))]
  }

  function MountPart(body: Fields): Fields {
    var readable, mounts := Get(body, MountsReadable) == Bool(true), GradeBody(body).mounts;
    map[Mounts := List(if readable then mounts else []), MountsReadable := Bool(readable && mounts != [])]
  }

  function TrustMap(clean: Val, want: Val, staged: Val, docs: Val, nonprod: Val, unreadable: Val): Fields {
    map[BundleNamesClean := clean, ExpectTrust := want, NoneStaged := staged, TrustDocs := docs, TrustNonprod := nonprod,
        TrustUnreadable := unreadable]
  }

  function Flag(body: Fields, key: Key): Val { Bool(Get(body, key) == Bool(true)) }

  function TrustPart(body: Fields): Fields {
    TrustMap(Flag(body, BundleNamesClean), ExpectText(Get(body, ExpectTrust)), Flag(body, NoneStaged),
             if Get(body, TrustDocs).Int? then Get(body, TrustDocs) else Int(0), Flag(body, TrustNonprod), Flag(body, TrustUnreadable))
  }

  /** The facts the guest may print. */
  function PublicFacts(body: Fields): Fields {
    HitsPart(body) + StatePart(body) + MountPart(body) + TrustPart(body) + ErrorPart(body)
  }

  function ErrorPart(body: Fields): Fields {
    if Get(body, ErrorKey) == Str("exception") then map[ErrorKey := Str("exception")] else map[]
  }

  /** A line of text as the host's patterns see it; `payload` None is text that is not JSON. */
  datatype Line =
    | ItemLine(name: Option<Item>, pass: bool)
    | VerdictLine(pass: bool)
    | JsonLine(size: nat, payload: Option<Val>)
    | OtherHu
    | NotHu

  datatype Text = Text(size: nat, lines: seq<Line>)

  function ItemLines(r: Results): seq<Line> {
    seq(|ITEMS|, i requires 0 <= i < |ITEMS| => ItemLine(Some(ITEMS[i]), ResultOf(r, ITEMS[i])))
  }

  function Payload(facts: Fields): Val { Dict(map[Facts := Dict(facts), Schema := Str(SCHEMA)]) }

  datatype Printed = Printed(text: Text) | PrintRaises

  /** The guest cannot print states or an expectation that Python cannot hash. */
  predicate Printable(body: Fields) {
    && Hashable(Get(body, ExpectTrust)) && Hashable(Get(body, CredentialPaths)) && Hashable(Get(body, CursorStores))
    && Hashable(Get(body, SigningKey))
  }

  /** Sizes are those of the printed text and of its JSON. */
  function Transcript(facts: Val, size: nat, jsonSize: nat): Printed {
    var body := AsDict(facts);
    if !Printable(body) then PrintRaises
    else
      var row := GradeBody(body);
      Printed.Printed(Text(size, ItemLines(row.results) + [VerdictLine(row.pass), JsonLine(jsonSize, Some(Payload(PublicFacts(body))))]))
  }

  // ----- reading it back -----

  datatype Sort = ItemSort | VerdictSort | JsonSort | NoSort

  function SortOf(line: Line): Sort {
    match line
    case ItemLine(_, _) => ItemSort
    case VerdictLine(_) => VerdictSort
    case JsonLine(_, _) => JsonSort
    case _ => NoSort
  }

  /** The lines of one sort, in their order. */
  function Select(lines: seq<Line>, sort: Sort): (r: seq<Line>)
    ensures forall i | 0 <= i < |r| :: SortOf(r[i]) == sort
  {
    if lines == [] then []
    else if SortOf(lines[0]) == sort then [lines[0]] + Select(lines[1..], sort)
    else Select(lines[1..], sort)
  }

  function ItemsIn(lines: seq<Line>): seq<Line> { Select(lines, ItemSort) }

  function VerdictsIn(lines: seq<Line>): seq<Line> { Select(lines, VerdictSort) }

  function BlobsIn(lines: seq<Line>): seq<Line> { Select(lines, JsonSort) }

  const MISSING: Row := Row(Results(false, false, false, false, false, false), [], false, false, [])

  predicate NamesInOrder(items: seq<Line>) {
    |items| == |ITEMS| && forall i | 0 <= i < |ITEMS| :: items[i].ItemLine? && items[i].name == Some(ITEMS[i])
  }

  predicate ItemsAgree(items: seq<Line>, r: Results) {
    |items| == |ITEMS| && forall i | 0 <= i < |ITEMS| :: items[i].ItemLine? && items[i].pass == ResultOf(r, ITEMS[i])
  }

  /** Six item lines with the right names, one verdict, one JSON line of the right schema, and no other H-U line. */
  predicate WellShaped(text: Text) {
    var items, verdicts, blobs := ItemsIn(text.lines), VerdictsIn(text.lines), BlobsIn(text.lines);
    && text.size <= MAX_TEXT && OtherHu !in text.lines
    && NamesInOrder(items) && |verdicts| == 1 && |blobs| == 1
    && blobs[0].JsonLine? && blobs[0].size <= MAX_JSON && blobs[0].payload.Some? && blobs[0].payload.value.Dict?
    && Get(blobs[0].payload.value.fields, Schema) == Str(SCHEMA)
  }

  function FactsOf(text: Text): Val
    requires WellShaped(text)
  {
    Get(BlobsIn(text.lines)[0].payload.value.fields, Facts)
  }

  predicate ExpectationMet(facts: Val, want: Option<string>) {
    want == Some("some") || want == Some("none") ==> facts.Dict? && Get(facts.fields, ExpectTrust) == Str(want.value)
  }

  predicate LinesAgree(text: Text, row: Row) {
    && ItemsAgree(ItemsIn(text.lines), row.results)
    && VerdictsIn(text.lines) == [VerdictLine(row.pass)]
  }

  function Accept(text: Text, want: Option<string>): Graded {
    if !WellShaped(text) then Graded.Graded(MISSING)
    else
      var g := Grade(FactsOf(text));
      if g.TypeError? then g
      else Graded.Graded(g.row.(pass := g.row.pass && LinesAgree(text, g.row) && ExpectationMet(FactsOf(text), want)))
  }

  /** Sorts the H-U lines by kind; any other H-U line ends the scan. */
  method ScanLines(lines: seq<Line>) returns (known: bool, items: seq<Line>, verdicts: seq<Line>, blobs: seq<Line>)
    ensures known <==> OtherHu !in lines
    ensures known ==> items == ItemsIn(lines) && verdicts == VerdictsIn(lines) && blobs == BlobsIn(lines)
  {
    items, verdicts, blobs := [], [], [];
    var i := 0;
    while i < |lines|
      invariant 0 <= i <= |lines| && OtherHu !in lines[..i]
      invariant ItemsIn(lines) == items + ItemsIn(lines[i..])
      invariant VerdictsIn(lines) == verdicts + VerdictsIn(lines[i..])
      invariant BlobsIn(lines) == blobs + BlobsIn(lines[i..])
    {
      assert lines[i..][1..] == lines[i + 1..];
      match lines[i] {
        case NotHu =>
        case OtherHu => return false, items, verdicts, blobs;
        case ItemLine(_, _) => items := items + [lines[i]];
        case VerdictLine(_) => verdicts := verdicts + [lines[i]];
        case JsonLine(_, _) => blobs := blobs + [lines[i]];
      }
      i := i + 1;
    }
    assert lines[i..] == [] && lines[..i] == lines;
    known := true;
  }

  /** The host's reader as written. */
  method AcceptTranscript(text: Text, want: Option<string>) returns (g: Graded)
    ensures g == Accept(text, want)
  {
    if text.size > MAX_TEXT {
      return Graded.Graded(MISSING);
    }
    var known, items, verdicts, blobs := ScanLines(text.lines);
    if !known || |items| != 6 || |verdicts| != 1 || |blobs| != 1 || !NamesInOrder(items) {
      return Graded.Graded(MISSING);
    }
    var blob := blobs[0];
    if blob.size > MAX_JSON || blob.payload.None? || !blob.payload.value.Dict? || Get(blob.payload.value.fields, Schema) != Str(SCHEMA) {
      return Graded.Graded(MISSING);
    }
    var facts := Get(blob.payload.value.fields, Facts);
    g := Grade(facts);
    if g.TypeError? {
      return;
    }
    var row := g.row;
    if !ItemsAgree(items, row.results) || verdicts[0].pass != row.pass {
      g := Graded.Graded(row.(pass := false));
    }
    if want == Some("some") || want == Some("none") {
      if !facts.Dict? || Get(facts.fields, ExpectTrust) != Str(want.value) {
        g := Graded.Graded(row.(pass := false));
      }
    }
  }

  // ----- the round trip -----

  ghost predicate Keeps(p: Fields, part: Fields) { forall key | key in part :: Get(p, key) == part[key] }

  lemma KeepsBoth(p: Fields, part: Fields, more: Fields)
    requires Keeps(p, part) && part.Keys <= p.Keys && part.Keys !! more.Keys
    ensures Keeps(p + more, part) && part.Keys <= (p + more).Keys
  {
  }

  lemma KeepsLast(p: Fields, more: Fields)
    ensures Keeps(p + more, more) && more.Keys <= (p + more).Keys
  {
  }

  lemma JoinReads(a: Fields, b: Fields, c: Fields, d: Fields, e: Fields)
    requires InGroup(a, 0) && InGroup(b, 1) && InGroup(c, 2) && InGroup(d, 3) && InGroup(e, 4)
    ensures var p := a + b + c + d + e; Keeps(p, a) && Keeps(p, b) && Keeps(p, c) && Keeps(p, d)
  {
    KeepsLast(a, b);
    KeepsLast(a + b, c);
    KeepsLast(a + b + c, d);
    KeepsBoth(a, a, b);
    KeepsBoth(a + b, a, c);
    KeepsBoth(a + b, b, c);
    KeepsBoth(a + b + c, a, d);
    KeepsBoth(a + b + c, b, d);
    KeepsBoth(a + b + c, c, d);
    KeepsBoth(a + b + c + d, a, e);
    KeepsBoth(a + b + c + d, b, e);
    KeepsBoth(a + b + c + d, c, e);
    KeepsBoth(a + b + c + d, d, e);
  }

  function Group(key: Key): int {
    if key == CredentialHits || key == SigningHits then 0
    else if key == CredentialPaths || key == CursorStores || key == SigningKey || key == SignerKidNull then 1
    else if key == Mounts || key == MountsReadable then 2
    else if key == ErrorKey then 4
    else 3
  }

  ghost predicate InGroup(part: Fields, n: int) { forall key | key in part :: Group(key) == n }

  lemma HitsGroup(a: Val, b: Val)
    ensures InGroup(map[CredentialHits := a, SigningHits := b], 0)
  {
  }

  lemma StateGroup(a: Val, b: Val, c: Val, d: Val)
    ensures InGroup(map[CredentialPaths := a, CursorStores := b, SigningKey := c, SignerKidNull := d], 1)
  {
  }

  lemma MountGroup(a: Val, b: Val)
    ensures InGroup(map[Mounts := a, MountsReadable := b], 2)
  {
  }

  lemma TrustGroup(a: Val, b: Val, c: Val, d: Val, e: Val, f: Val)
    ensures InGroup(TrustMap(a, b, c, d, e, f), 3)
  {
  }

  lemma HitsPartGroup(body: Fields)
    ensures InGroup(HitsPart(body), 0)
  {
    var h := HitsPart(body);
    HitsGroup(h[CredentialHits], h[SigningHits]);
  }

  lemma StatePartGroup(body: Fields)
    ensures InGroup(StatePart(body), 1)
  {
    var s := StatePart(body);
    StateGroup(s[CredentialPaths], s[CursorStores], s[SigningKey], s[SignerKidNull]);
  }

  lemma MountPartGroup(body: Fields)
    ensures InGroup(MountPart(body), 2)
  {
    var m := MountPart(body);
    MountGroup(m[Mounts], m[MountsReadable]);
  }

  lemma TrustPartGroup(body: Fields)
    ensures InGroup(TrustPart(body), 3) && InGroup(ErrorPart(body), 4)
  {
    TrustGroup(Flag(body, BundleNamesClean), ExpectText(Get(body, ExpectTrust)), Flag(body, NoneStaged),
               if Get(body, TrustDocs).Int? then Get(body, TrustDocs) else Int(0), Flag(body, TrustNonprod), Flag(body, TrustUnreadable));
  }

  lemma PublicReads(body: Fields)
    ensures var p := PublicFacts(body);
            Keeps(p, HitsPart(body)) && Keeps(p, StatePart(body)) && Keeps(p, MountPart(body)) && Keeps(p, TrustPart(body))
  {
    HitsPartGroup(body);
    StatePartGroup(body);
    MountPartGroup(body);
    TrustPartGroup(body);
    JoinReads(HitsPart(body), StatePart(body), MountPart(body), TrustPart(body), ErrorPart(body));
  }

  lemma ExpectationReads(body: Fields)
    ensures Get(PublicFacts(body), ExpectTrust) == ExpectText(Get(body, ExpectTrust))
  {
    PublicReads(body);
    assert ExpectTrust in TrustPart(body);
  }

  lemma TrustSame(body: Fields, p: Fields)
    requires Keeps(p, TrustPart(body))
    requires TrustOk(body)
    ensures TrustOk(p) && (ExpectsNone(p) <==> ExpectsNone(body))
    ensures Get(p, NoneStaged) == Bool(true) <==> Get(body, NoneStaged) == Bool(true)
  {
    var t := TrustPart(body);
    assert TrustUnreadable in t && TrustDocs in t && ExpectTrust in t && NoneStaged in t && BundleNamesClean in t && TrustNonprod in t;
    assert "some"[0] == 's' && "none"[0] == 'n';
  }

  lemma HitsSame(body: Fields, p: Fields)
    requires Keeps(p, HitsPart(body))
    ensures Hits(Get(p, CredentialHits)) == SafePaths(Hits(Get(body, CredentialHits)))
    ensures Hits(Get(p, SigningHits)) == SafePaths(Hits(Get(body, SigningHits)))
  {
    assert CredentialHits in HitsPart(body) && SigningHits in HitsPart(body);
    TextsOfTexts(SafePaths(Hits(Get(body, CredentialHits))));
    TextsOfTexts(SafePaths(Hits(Get(body, SigningHits))));
  }

  lemma StatesSame(body: Fields, p: Fields)
    requires Keeps(p, StatePart(body))
    ensures Get(body, CredentialPaths) == Str("absent") ==> Get(p, CredentialPaths) == Str("absent")
    ensures Get(body, CursorStores) == Str("absent") ==> Get(p, CursorStores) == Str("absent")
    ensures Get(body, SigningKey) == Str("absent") ==> Get(p, SigningKey) == Str("absent")
    ensures Get(body, SignerKidNull) == Bool(true) ==> Get(p, SignerKidNull) == Bool(true)
  {
    var t := StatePart(body);
    assert CredentialPaths in t && CursorStores in t && SigningKey in t && SignerKidNull in t;
  }

  lemma MountsSame(body: Fields, p: Fields)
    requires Keeps(p, MountPart(body))
    requires GradeResults(body).mounts
    ensures GradeResults(p).mounts && CleanMounts(Get(p, Mounts)) == CleanMounts(Get(body, Mounts))
  {
    assert Mounts in MountPart(body) && MountsReadable in MountPart(body);
    CleanMountsStable(Get(body, Mounts));
  }

  /** Facts that pass print as facts with the same row. */
  lemma PassingFactsSurvive(body: Fields)
    requires GradeBody(body).pass
    ensures GradeBody(PublicFacts(body)) == GradeBody(body)
  {
    var p := PublicFacts(body);
    PublicReads(body);
    TrustSame(body, p);
    HitsSame(body, p);
    StatesSame(body, p);
    MountsSame(body, p);
    assert GradeResults(body) == GradeResults(p);
  }

  lemma {:induction false} SelectAppend(a: seq<Line>, b: seq<Line>, sort: Sort)
    ensures Select(a + b, sort) == Select(a, sort) + Select(b, sort)
  {
    if a == [] {
      assert a + b == b;
    } else {
      assert (a + b)[1..] == a[1..] + b;
      SelectAppend(a[1..], b, sort);
    }
  }

  lemma {:induction false} SelectSame(lines: seq<Line>, one: Sort, sort: Sort)
    requires forall i | 0 <= i < |lines| :: SortOf(lines[i]) == one
    ensures Select(lines, sort) == if sort == one then lines else []
  {
    if lines != [] {
      SelectSame(lines[1..], one, sort);
    }
  }

  /** Items, then one verdict, then one JSON line. */
  lemma SelectShape(items: seq<Line>, verdict: Line, blob: Line, sort: Sort)
    requires forall i | 0 <= i < |items| :: items[i].ItemLine?
    requires verdict.VerdictLine? && blob.JsonLine?
    ensures Select(items + [verdict, blob], sort) ==
            match sort
            case ItemSort => items
            case VerdictSort => [verdict]
            case JsonSort => [blob]
            case NoSort => []
  {
    SelectAppend(items, [verdict, blob], sort);
    assert [verdict, blob] == [verdict] + [blob];
    SelectAppend([verdict], [blob], sort);
    SelectSame(items, ItemSort, sort);
    SelectSame([verdict], VerdictSort, sort);
    SelectSame([blob], JsonSort, sort);
  }

  /** What the host finds in the guest's own print-out. */
  lemma TranscriptShape(facts: Val, size: nat, jsonSize: nat)
    requires Printable(AsDict(facts)) && size <= MAX_TEXT && jsonSize <= MAX_JSON
    ensures var text, row := Transcript(facts, size, jsonSize).text, GradeBody(AsDict(facts));
            && WellShaped(text) && FactsOf(text) == Dict(PublicFacts(AsDict(facts)))
            && ItemsIn(text.lines) == ItemLines(row.results) && VerdictsIn(text.lines) == [VerdictLine(row.pass)]
  {
    var row, p := GradeBody(AsDict(facts)), Payload(PublicFacts(AsDict(facts)));
    var items, blob := ItemLines(row.results), JsonLine(jsonSize, Some(p));
    SelectShape(items, VerdictLine(row.pass), blob, ItemSort);
    SelectShape(items, VerdictLine(row.pass), blob, VerdictSort);
    SelectShape(items, VerdictLine(row.pass), blob, JsonSort);
    PayloadReads(PublicFacts(AsDict(facts)));
    NoOther(items, VerdictLine(row.pass), blob);
    ShapeFits(Transcript(facts, size, jsonSize).text, row.results, blob);
  }

  lemma NoOther(items: seq<Line>, verdict: Line, blob: Line)
    requires forall i | 0 <= i < |items| :: items[i].ItemLine?
    requires verdict.VerdictLine? && blob.JsonLine?
    ensures OtherHu !in items + [verdict, blob]
  {
  }

  lemma PayloadReads(facts: Fields)
    ensures Get(Payload(facts).fields, Schema) == Str(SCHEMA) && Get(Payload(facts).fields, Facts) == Dict(facts)
  {
  }

  lemma ShapeFits(text: Text, r: Results, blob: Line)
    requires text.size <= MAX_TEXT && OtherHu !in text.lines
    requires ItemsIn(text.lines) == ItemLines(r) && |VerdictsIn(text.lines)| == 1 && BlobsIn(text.lines) == [blob]
    requires blob.JsonLine? && blob.size <= MAX_JSON && blob.payload.Some? && blob.payload.value.Dict?
    requires Get(blob.payload.value.fields, Schema) == Str(SCHEMA)
    ensures WellShaped(text) && FactsOf(text) == Get(blob.payload.value.fields, Facts)
  {
  }

  lemma OversizedIsStop(text: Text, want: Option<string>)
    requires text.size > MAX_TEXT || exists i | 0 <= i < |BlobsIn(text.lines)| :: BlobsIn(text.lines)[i].JsonLine? && BlobsIn(text.lines)[i].size > MAX_JSON
    ensures Accept(text, want) == Graded.Graded(MISSING)
  {
  }

  predicate Passes(g: Graded) { g.Graded? && g.row.pass }

  /** What the guest prints as its expectation. */
  function PrintedExpectation(facts: Val): Val { ExpectText(Get(AsDict(facts), ExpectTrust)) }

  /**
   The host passes the guest's print-out exactly when the facts pass and the printed expectation
   is the one the host asked for; and then it has the guest's own row.
   */
  lemma RoundTrip(facts: Val, size: nat, jsonSize: nat, want: Option<string>)
    requires Printable(AsDict(facts)) && size <= MAX_TEXT && jsonSize <= MAX_JSON
    ensures var g := Accept(Transcript(facts, size, jsonSize).text, want);
            && (Passes(g) <==>
                && Passes(Grade(facts))
                && (want == Some("some") || want == Some("none") ==> PrintedExpectation(facts) == Str(want.value)))
            && (Passes(g) ==> g == Grade(facts))
  {
    var body := AsDict(facts);
    var text := Transcript(facts, size, jsonSize).text;
    TranscriptShape(facts, size, jsonSize);
    ExpectationReads(body);
    if GradeBody(body).pass {
      PassingFactsSurvive(body);
    }
    AcceptShaped(text, PublicFacts(body), GradeBody(body), want);
  }

  lemma AcceptShaped(text: Text, p: Fields, row: Row, want: Option<string>)
    requires WellShaped(text) && FactsOf(text) == Dict(p) && Hashable(Get(p, ExpectTrust))
    requires ItemsIn(text.lines) == ItemLines(row.results) && VerdictsIn(text.lines) == [VerdictLine(row.pass)]
    requires row.pass ==> GradeBody(p) == row
    ensures Passes(Accept(text, want)) <==> row.pass && ExpectationMet(Dict(p), want)
    ensures Passes(Accept(text, want)) ==> Accept(text, want) == Graded.Graded(row)
  {
  }

  function SixPasses(): seq<Line> { ItemLines(Results(true, true, true, true, true, true)) }

  /** Its one JSON line, within the size limit, holds an object of the schema. */
  ghost predicate HoldsFacts(lines: seq<Line>, facts: Val) {
    exists size: nat, d: Fields :: HoldsIn(lines, facts, size, d)
  }

  ghost predicate HoldsIn(lines: seq<Line>, facts: Val, size: nat, d: Fields) {
    && size <= 65536 && BlobsIn(lines) == [JsonLine(size, Some(Dict(d)))]
    && Get(d, Schema) == Str("vantio.lab.host-evidence.h-u/v1") && Get(d, Facts) == facts
  }

  /**
   On any text within its size and without another H-U line: a pass is the six items, named in
   order and passing, one passing verdict, and facts that pass when graded again, with the
   expectation the host asked for.
   */
  lemma PassIff(text: Text, want: Option<string>)
    ensures Passes(Accept(text, want)) <==>
            && text.size <= 200000 && OtherHu !in text.lines
            && ItemsIn(text.lines) == [ItemLine(Some(MountsItem), true), ItemLine(Some(CursorItem), true), ItemLine(Some(CredentialItem), true),
                                       ItemLine(Some(SigningItem), true), ItemLine(Some(TrustItem), true), ItemLine(Some(SignerItem), true)]
            && VerdictsIn(text.lines) == [VerdictLine(true)]
            && exists facts :: HoldsFacts(text.lines, facts) && FactsPass(facts, want)
    ensures Passes(Accept(text, want)) ==> WellShaped(text) && ItemsIn(text.lines) == SixPasses() && Accept(text, want) == Grade(FactsOf(text))
  {
    SixAre();
    if Passes(Accept(text, want)) {
      PassSays(text, want);
      var blob := BlobsIn(text.lines)[0];
      assert HoldsIn(text.lines, FactsOf(text), blob.size, blob.payload.value.fields);
      GradesPass(FactsOf(text), want);
    }
    if facts :| HoldsFacts(text.lines, facts) && FactsPass(facts, want) {
      var size: nat, d: Fields :| HoldsIn(text.lines, facts, size, d);
      if text.size <= 200000 && OtherHu !in text.lines && ItemsIn(text.lines) == SixPasses() && VerdictsIn(text.lines) == [VerdictLine(true)] {
        assert WellShaped(text) && FactsOf(text) == facts;
        GradesPass(facts, want);
        PassSays(text, want);
      }
    }
  }

  /** The facts pass, their expectation is no list or object, and it is the asked one. */
  ghost predicate FactsPass(facts: Val, want: Option<string>) {
    && GradeBody(AsDict(facts)).pass && !Get(AsDict(facts), ExpectTrust).List? && !Get(AsDict(facts), ExpectTrust).Dict?
    && (want == Some("some") || want == Some("none") ==>
          facts.Dict? && ExpectTrust in facts.fields && facts.fields[ExpectTrust] == Str(want.value))
  }

  lemma GradesPass(facts: Val, want: Option<string>)
    ensures Passes(Grade(facts)) && ExpectationMet(facts, want) <==> FactsPass(facts, want)
  {
  }

  lemma SixAre()
    ensures SixPasses() == [ItemLine(Some(MountsItem), true), ItemLine(Some(CursorItem), true), ItemLine(Some(CredentialItem), true),
                            ItemLine(Some(SigningItem), true), ItemLine(Some(TrustItem), true), ItemLine(Some(SignerItem), true)]
  {
  }

  lemma PassSays(text: Text, want: Option<string>)
    ensures Passes(Accept(text, want)) <==>
            && WellShaped(text) && ItemsIn(text.lines) == SixPasses() && VerdictsIn(text.lines) == [VerdictLine(true)]
            && Passes(Grade(FactsOf(text))) && ExpectationMet(FactsOf(text), want)
    ensures Passes(Accept(text, want)) ==> Accept(text, want) == Grade(FactsOf(text))
  {
    if WellShaped(text) && Passes(Grade(FactsOf(text))) {
      var row := Grade(FactsOf(text)).row;
      assert row.results == Results(true, true, true, true, true, true);
      var items := ItemsIn(text.lines);
      if ItemsAgree(items, row.results) {
        assert forall i | 0 <= i < 6 :: items[i] == SixPasses()[i];
      }
    }
  }

  /** A well-shaped text, in its own words. */
  lemma WellShapedIff(text: Text)
    ensures WellShaped(text) <==>
            && text.size <= 200000 && OtherHu !in text.lines && |ItemsIn(text.lines)| == 6
            && (forall i | 0 <= i < 6 :: NamedAt(ItemsIn(text.lines)[i], i))
            && |VerdictsIn(text.lines)| == 1 && exists facts :: HoldsFacts(text.lines, facts)
    ensures forall facts :: HoldsFacts(text.lines, facts) && WellShaped(text) ==> FactsOf(text) == facts
  {
    if WellShaped(text) {
      var blob := BlobsIn(text.lines)[0];
      assert HoldsIn(text.lines, FactsOf(text), blob.size, blob.payload.value.fields);
      assert HoldsFacts(text.lines, FactsOf(text));
    }
    forall facts | HoldsFacts(text.lines, facts) && WellShaped(text) ensures FactsOf(text) == facts {
      var size: nat, d: Fields :| HoldsIn(text.lines, facts, size, d);
    }
  }

  ghost predicate NamedAt(line: Line, i: int) {
    && line.ItemLine?
    && line.name == Some(if i == 0 then MountsItem else if i == 1 then CursorItem else if i == 2 then CredentialItem
                         else if i == 3 then SigningItem else if i == 4 then TrustItem else SignerItem)
  }

  /**
   The row of a text that is not well shaped has no passing item; that of a well-shaped one is the
   grade of its facts, stopped unless every line agrees and the expectation is met.
   */
  lemma AcceptIs(text: Text, want: Option<string>)
    requires Accept(text, want).Graded?
    ensures var row := Accept(text, want).row;
            if !WellShaped(text) then row == Row(Results(false, false, false, false, false, false), [], false, false, [])
            else
              var graded := GradeBody(AsDict(FactsOf(text)));
              && row.(pass := graded.pass) == graded
              && (row.pass <==>
                    && graded.pass && VerdictsIn(text.lines) == [VerdictLine(graded.pass)] && FactsPass(FactsOf(text), want)
                    && forall i | 0 <= i < 6 :: ItemsIn(text.lines)[i].pass)
  {
    if WellShaped(text) {
      var row := GradeBody(AsDict(FactsOf(text)));
      GradesPass(FactsOf(text), want);
      if row.pass {
        assert row.results == Results(true, true, true, true, true, true);
      }
    }
  }

  // ----- the public facts -----

  /** What the guest prints: its states and flags. */
  lemma PublicStatesAre(body: Fields)
    ensures var p := PublicFacts(body);
            && Get(p, CredentialPaths) == Stated(Get(body, CredentialPaths)) && Get(p, CursorStores) == Stated(Get(body, CursorStores))
            && Get(p, SigningKey) == Stated(Get(body, SigningKey))
            && Get(p, SignerKidNull) == Bool(Get(body, SignerKidNull) == Bool(true))
  {
    PublicReads(body);
    StatesFrom(body, PublicFacts(body));
  }

  lemma StatesFrom(body: Fields, p: Fields)
    requires Keeps(p, StatePart(body))
    ensures
            Get(p, CredentialPaths) == Stated(Get(body, CredentialPaths)) && Get(p, CursorStores) == Stated(Get(body, CursorStores))
            && Get(p, SigningKey) == Stated(Get(body, SigningKey))
            && Get(p, SignerKidNull) == Bool(Get(body, SignerKidNull) == Bool(true))
  {
  }

  /** Its findings, by path names. */
  lemma PublicHitsAre(body: Fields)
    ensures var p := PublicFacts(body);
            && Get(p, CredentialHits) == List(AsTexts(SafePaths(Hits(Get(body, CredentialHits)))))
            && Get(p, SigningHits) == List(AsTexts(SafePaths(Hits(Get(body, SigningHits)))))
  {
    PublicReads(body);
  }

  /** What it says of the trust store. */
  lemma PublicTrustIs(body: Fields)
    ensures var p := PublicFacts(body);
            && Get(p, BundleNamesClean) == Bool(Get(body, BundleNamesClean) == Bool(true))
            && Get(p, NoneStaged) == Bool(Get(body, NoneStaged) == Bool(true))
            && Get(p, TrustNonprod) == Bool(Get(body, TrustNonprod) == Bool(true))
            && Get(p, TrustUnreadable) == Bool(Get(body, TrustUnreadable) == Bool(true))
            && Get(p, ExpectTrust) == (if Get(body, ExpectTrust) == Str("none") then Str("none") else Str("some"))
            && Get(p, TrustDocs) == (if Get(body, TrustDocs).Int? then Get(body, TrustDocs) else Int(0))
  {
    PublicReads(body);
    TrustFrom(body, PublicFacts(body));
  }

  lemma TrustFrom(body: Fields, p: Fields)
    requires Keeps(p, TrustPart(body))
    ensures
            Get(p, BundleNamesClean) == Bool(Get(body, BundleNamesClean) == Bool(true))
            && Get(p, NoneStaged) == Bool(Get(body, NoneStaged) == Bool(true))
            && Get(p, TrustNonprod) == Bool(Get(body, TrustNonprod) == Bool(true))
            && Get(p, TrustUnreadable) == Bool(Get(body, TrustUnreadable) == Bool(true))
            && Get(p, ExpectTrust) == (if Get(body, ExpectTrust) == Str("none") then Str("none") else Str("some"))
            && Get(p, TrustDocs) == (if Get(body, TrustDocs).Int? then Get(body, TrustDocs) else Int(0))
  {
  }

  /** An exception is printed as such, and nothing else is. */
  ghost predicate KeysAre(p: Fields, failed: bool) {
    p.Keys == {CredentialHits, SigningHits} + {CredentialPaths, CursorStores, SigningKey, SignerKidNull} + {Mounts, MountsReadable}
              + {BundleNamesClean, ExpectTrust, NoneStaged, TrustDocs, TrustNonprod, TrustUnreadable}
              + (if failed then {ErrorKey} else {})
  }

  lemma PublicKeysAre(body: Fields)
    ensures KeysAre(PublicFacts(body), Get(body, ErrorKey) == Str("exception"))
    ensures ErrorKey in PublicFacts(body) ==> PublicFacts(body)[ErrorKey] == Str("exception")
  {
    StateKeys(body);
    MountKeys(body);
    TrustKeys(body);
    ErrorKeys(body);
    SummedKeys(HitsPart(body), StatePart(body), MountPart(body), TrustPart(body), ErrorPart(body), Get(body, ErrorKey) == Str("exception"));
  }

  lemma SummedKeys(a: Fields, b: Fields, c: Fields, d: Fields, e: Fields, failed: bool)
    requires a.Keys == {CredentialHits, SigningHits} && b.Keys == {CredentialPaths, CursorStores, SigningKey, SignerKidNull}
    requires c.Keys == {Mounts, MountsReadable}
    requires d.Keys == {BundleNamesClean, ExpectTrust, NoneStaged, TrustDocs, TrustNonprod, TrustUnreadable}
    requires e.Keys == if failed then {ErrorKey} else {}
    requires ErrorKey in e ==> e[ErrorKey] == Str("exception")
    ensures KeysAre(a + b + c + d + e, failed)
    ensures ErrorKey in a + b + c + d + e ==> (a + b + c + d + e)[ErrorKey] == Str("exception")
  {
    KeySum(a, b, c, d, e);
  }

  lemma StateKeys(body: Fields)
    ensures HitsPart(body).Keys == {CredentialHits, SigningHits}
    ensures StatePart(body).Keys == {CredentialPaths, CursorStores, SigningKey, SignerKidNull}
  {
  }

  lemma MountKeys(body: Fields)
    ensures MountPart(body).Keys == {Mounts, MountsReadable}
  {
  }

  lemma TrustKeys(body: Fields)
    ensures TrustPart(body).Keys == {BundleNamesClean, ExpectTrust, NoneStaged, TrustDocs, TrustNonprod, TrustUnreadable}
  {
  }

  lemma ErrorKeys(body: Fields)
    ensures ErrorPart(body).Keys == if Get(body, ErrorKey) == Str("exception") then {ErrorKey} else {}
    ensures ErrorKey in ErrorPart(body) ==> ErrorPart(body)[ErrorKey] == Str("exception")
  {
  }

  lemma KeySum(a: Fields, b: Fields, c: Fields, d: Fields, e: Fields)
    ensures (a + b + c + d + e).Keys == a.Keys + b.Keys + c.Keys + d.Keys + e.Keys
  {
  }

  /** The mounts it prints are those that pass, and whether there are any. */
  lemma PublicMountsAre(body: Fields)
    ensures var p, sound := PublicFacts(body), Get(body, MountsReadable) == Bool(true) && SoundMounts(Get(body, Mounts));
            Get(p, Mounts) == (if sound then Get(body, Mounts) else List([])) && Get(p, MountsReadable) == Bool(sound)
  {
    PublicReads(body);
    ResultsIff(body);
    CleanMountsIff(Get(body, Mounts));
  }

  ghost function Stated(v: Val): Val {
    if v == Str("absent") || v == Str("present") || v == Str("unreadable") then v else Str("unreadable")
  }

  /** The reader raises exactly on a well-shaped text whose facts carry an unhashable expectation. */
  lemma AcceptRaisesIff(text: Text, want: Option<string>)
    ensures Accept(text, want).TypeError? <==>
            WellShaped(text) && FactsOf(text).Dict? && !Hashable(Get(FactsOf(text).fields, ExpectTrust))
  {
  }

  // ----- reordered lines -----

  /** The same lines, in any order. */
  ghost predicate SameLines(a: Text, b: Text) { a.size == b.size && multiset(a.lines) == multiset(b.lines) }

  lemma {:induction false} SelectCounts(lines: seq<Line>, sort: Sort, line: Line)
    ensures multiset(Select(lines, sort))[line] == if SortOf(line) == sort then multiset(lines)[line] else 0
  {
    if lines != [] {
      SelectCounts(lines[1..], sort, line);
      assert lines == [lines[0]] + lines[1..];
    }
  }

  lemma SelectPermuted(a: seq<Line>, b: seq<Line>, sort: Sort)
    requires multiset(a) == multiset(b)
    ensures multiset(Select(a, sort)) == multiset(Select(b, sort))
  {
    forall line ensures multiset(Select(a, sort))[line] == multiset(Select(b, sort))[line] {
      SelectCounts(a, sort, line);
      SelectCounts(b, sort, line);
    }
  }

  lemma SameSize(a: seq<Line>, b: seq<Line>)
    requires multiset(a) == multiset(b)
    ensures |a| == |b| && (|a| == 1 ==> a == b)
  {
    assert |multiset(a)| == |multiset(b)|;
    if |a| == 1 {
      assert b[0] in multiset(b);
      assert b[0] in a;
    }
  }

  /** The reader keeps three lists of lines and not how they lie between each other. */
  lemma AcceptReadsSorts(a: Text, b: Text, want: Option<string>)
    requires a.size == b.size && (OtherHu in a.lines <==> OtherHu in b.lines)
    requires ItemsIn(a.lines) == ItemsIn(b.lines)
    requires |VerdictsIn(a.lines)| == |VerdictsIn(b.lines)| && (|VerdictsIn(a.lines)| == 1 ==> VerdictsIn(a.lines) == VerdictsIn(b.lines))
    requires |BlobsIn(a.lines)| == |BlobsIn(b.lines)| && (|BlobsIn(a.lines)| == 1 ==> BlobsIn(a.lines) == BlobsIn(b.lines))
    ensures Accept(a, want) == Accept(b, want)
  {
    assert WellShaped(a) <==> WellShaped(b);
  }

  /** Any reordering of any text that keeps the item lines in their order is read as the same row. */
  lemma OnlyItemOrderMatters(a: Text, b: Text, want: Option<string>)
    requires SameLines(a, b) && ItemsIn(a.lines) == ItemsIn(b.lines)
    ensures Accept(a, want) == Accept(b, want)
  {
    SelectPermuted(a.lines, b.lines, VerdictSort);
    SelectPermuted(a.lines, b.lines, JsonSort);
    SameSize(VerdictsIn(a.lines), VerdictsIn(b.lines));
    SameSize(BlobsIn(a.lines), BlobsIn(b.lines));
    assert OtherHu in a.lines <==> OtherHu in multiset(a.lines);
    assert OtherHu in b.lines <==> OtherHu in multiset(b.lines);
    AcceptReadsSorts(a, b, want);
  }

  /** Items that all pass and have the right names in the right order are the six passes. */
  lemma PermutedPasses(items: seq<Line>)
    requires multiset(items) == multiset(SixPasses()) && NamesInOrder(items)
    ensures items == SixPasses()
  {
    forall i | 0 <= i < |items| ensures items[i] == SixPasses()[i] {
      assert items[i] in multiset(items);
      assert items[i] in SixPasses();
    }
  }

  /** A reordering of a passing text passes exactly when its item lines kept their order; otherwise nothing is read from it. */
  lemma ReorderedPassIff(text: Text, other: Text, want: Option<string>)
    requires Passes(Accept(text, want)) && SameLines(text, other)
    ensures Passes(Accept(other, want)) <==> ItemsIn(other.lines) == ItemsIn(text.lines)
    ensures Accept(other, want) ==
            if ItemsIn(other.lines) == ItemsIn(text.lines) then Accept(text, want) else Graded.Graded(MISSING)
  {
    PassIff(text, want);
    if ItemsIn(other.lines) == ItemsIn(text.lines) {
      OnlyItemOrderMatters(text, other, want);
    } else {
      SelectPermuted(text.lines, other.lines, ItemSort);
      if NamesInOrder(ItemsIn(other.lines)) {
        PermutedPasses(ItemsIn(other.lines));
      }
    }
  }

  /** The guest's print-out with its verdict and its JSON line moved to the front. */
  function VerdictFirst(facts: Val, size: nat, jsonSize: nat): Text
    requires Printable(AsDict(facts))
  {
    var row := GradeBody(AsDict(facts));
    Text(size, [JsonLine(jsonSize, Some(Payload(PublicFacts(AsDict(facts))))), VerdictLine(row.pass)] + ItemLines(row.results))
  }

  /** Moving them is never noticed. */
  lemma VerdictFirstSame(facts: Val, size: nat, jsonSize: nat, want: Option<string>)
    requires Printable(AsDict(facts))
    ensures Accept(VerdictFirst(facts, size, jsonSize), want) == Accept(Transcript(facts, size, jsonSize).text, want)
  {
    var row := GradeBody(AsDict(facts));
    MovedLines(ItemLines(row.results), VerdictLine(row.pass), JsonLine(jsonSize, Some(Payload(PublicFacts(AsDict(facts))))));
    OnlyItemOrderMatters(VerdictFirst(facts, size, jsonSize), Transcript(facts, size, jsonSize).text, want);
  }

  lemma MovedLines(items: seq<Line>, verdict: Line, blob: Line)
    requires verdict.VerdictLine? && blob.JsonLine?
    ensures multiset([blob, verdict] + items) == multiset(items + [verdict, blob])
    ensures ItemsIn([blob, verdict] + items) == ItemsIn(items + [verdict, blob])
  {
    SelectAppend([blob, verdict], items, ItemSort);
    SelectAppend(items, [verdict, blob], ItemSort);
    assert ItemsIn([blob, verdict]) == [] && ItemsIn([verdict, blob]) == [];
  }

  /** The facts the repository's own tests grade as passing. */
  function PassingFacts(): Fields {
    map[MountsReadable := Bool(true),
        Mounts := List([Dict(map[FsType := Str("ext4"), MountKey := Str("/")]), Dict(map[FsType := Str("proc"), MountKey := Str("/proc")])]),
        CursorStores := Str("absent"), CredentialPaths := Str("absent"), CredentialHits := List([]),
        SigningKey := Str("absent"), SigningHits := List([]),
        TrustDocs := Int(1), TrustNonprod := Bool(true), TrustUnreadable := Bool(false),
        BundleNamesClean := Bool(true), ExpectTrust := Str("some"), NoneStaged := Bool(false), SignerKidNull := Bool(true)]
  }

  lemma PassingMount(mount: string, kind: string)
    requires (mount == "/" && kind == "ext4") || (mount == "/proc" && kind == "proc")
    ensures var row := Dict(map[FsType := Str(kind), MountKey := Str(mount)]); MountOk(row) && !OnStores(row)
  {
    var fields: Fields := map[FsType := Str(kind), MountKey := Str(mount)];
    assert Get(fields, FsType) == Str(kind) && Get(fields, MountKey) == Str(mount);
    assert |STORES| == 14;
  }

  lemma PassingFactsRead()
    ensures var f := PassingFacts();
            && Get(f, MountsReadable) == Bool(true) && Get(f, Mounts).List? && |Get(f, Mounts).items| == 2
            && Get(f, CursorStores) == Get(f, CredentialPaths) == Get(f, SigningKey) == Str("absent")
            && Get(f, CredentialHits) == Get(f, SigningHits) == List([])
            && Get(f, TrustDocs) == Int(1) && Get(f, TrustNonprod) == Bool(true) && Get(f, TrustUnreadable) == Bool(false)
            && Get(f, ExpectTrust) == Str("some") && Get(f, SignerKidNull) == Bool(true)
    ensures forall m | m in Get(PassingFacts(), Mounts).items :: MountOk(m) && !OnStores(m)
  {
    PassingMount("/", "ext4");
    PassingMount("/proc", "proc");
  }

  lemma PassingFactsPass()
    ensures GradeBody(PassingFacts()).pass && Printable(PassingFacts())
  {
    PassingFactsRead();
    PassesGiven(PassingFacts());
  }

  lemma PassesGiven(f: Fields)
    requires Get(f, MountsReadable) == Bool(true) && Get(f, Mounts).List? && 0 < |Get(f, Mounts).items| <= MAX_MOUNTS
    requires forall m | m in Get(f, Mounts).items :: MountOk(m) && !OnStores(m)
    requires Get(f, CursorStores) == Get(f, CredentialPaths) == Get(f, SigningKey) == Str("absent")
    requires Get(f, CredentialHits) == Get(f, SigningHits) == List([])
    requires Get(f, TrustDocs) == Int(1) && Get(f, TrustNonprod) == Bool(true) && Get(f, TrustUnreadable) == Bool(false)
    requires Get(f, ExpectTrust) == Str("some") && Get(f, SignerKidNull) == Bool(true)
    ensures GradeBody(f).pass && Printable(f)
  {
    assert |"some"| == 4 && "some"[0] != "none"[0];
    GradePassIff(f);
  }

  /** A print-out whose lines are out of order, and which passes. */
  lemma ReorderedPasses(size: nat, jsonSize: nat)
    requires size <= MAX_TEXT && jsonSize <= MAX_JSON
    ensures var facts := Dict(PassingFacts());
            && Printable(PassingFacts())
            && VerdictFirst(facts, size, jsonSize).lines != Transcript(facts, size, jsonSize).text.lines
            && Passes(Accept(VerdictFirst(facts, size, jsonSize), Some("some")))
  {
    var facts := Dict(PassingFacts());
    PassingFactsPass();
    RoundTrip(facts, size, jsonSize, Some("some"));
    VerdictFirstSame(facts, size, jsonSize, Some("some"));
    assert VerdictFirst(facts, size, jsonSize).lines[0].JsonLine?;
  }

  // ----- the public file -----

  function NameText(item: Item): string {
    match item
    case MountsItem => "mounts"
    case CursorItem => "cursor_stores"
    case CredentialItem => "credential_paths"
    case SigningItem => "production_signing_key"
    case TrustItem => "staged_trust"
    case SignerItem => "signer_kid"
  }

  function Word(pass: bool): Val { if pass then Str("PASS") else Str("STOP") }

  predicate IsWord(v: Val) { v == Str("PASS") || v == Str("STOP") }

  lemma WordReads(pass: bool)
    ensures IsWord(Word(pass)) && (Word(pass) == Str("PASS") <==> pass)
  {
    assert "PASS"[0] == 'P' && "STOP"[0] == 'S';
  }

  function FindItem(v: Val, items: seq<Item>): (r: Option<Item>)
    ensures r.Some? ==> v == Str(NameText(r.value))
    ensures r.None? ==> forall item | item in items :: v != Str(NameText(item))
  {
    if items == [] then None else if v == Str(NameText(items[0])) then Some(items[0]) else FindItem(v, items[1..])
  }

  lemma NamesDistinct(a: Item, b: Item)
    requires NameText(a) == NameText(b)
    ensures a == b
  {
    assert |"mounts"| == 6 && |"cursor_stores"| == 13 && |"credential_paths"| == 16 && |"production_signing_key"| == 22;
    assert |"staged_trust"| == 12 && |"signer_kid"| == 10;
  }

  lemma FindName(item: Item)
    ensures FindItem(Str(NameText(item)), ITEMS) == Some(item)
  {
    assert item in ITEMS by {
      assert ITEMS[0] == MountsItem && ITEMS[1] == CursorItem && ITEMS[2] == CredentialItem;
      assert ITEMS[3] == SigningItem && ITEMS[4] == TrustItem && ITEMS[5] == SignerItem;
    }
    NamesDistinct(item, FindItem(Str(NameText(item)), ITEMS).value);
  }

  datatype Public<T> = Ok(value: T) | ValueError | PublicTypeError

  /** One entry of the item list. */
  function ReadItem(v: Val): Public<(Item, bool)> {
    if !v.Dict? then ValueError
    else
      var item, result := FindItem(Get(v.fields, Name), ITEMS), Get(v.fields, ResultKey);
      if item.None? then ValueError
      else if !Hashable(result) then PublicTypeError
      else if !IsWord(result) then ValueError
      else Ok((item.value, result == Str("PASS")))
  }

  /** The entries in order; a later entry of the same name replaces an earlier one. */
  function ReadItems(items: seq<Val>, byName: map<Item, bool>): Public<map<Item, bool>>
    decreases items
  {
    if items == [] then Ok(byName)
    else
      var first := ReadItem(items[0]);
      if first.Ok? then ReadItems(items[1..], byName[first.value.0 := first.value.1])
      else if first.ValueError? then ValueError else PublicTypeError
  }

  method ReadItemsLoop(items: seq<Val>) returns (r: Public<map<Item, bool>>)
    ensures r == ReadItems(items, map[])
  {
    var byName: map<Item, bool> := map[];
    var i := 0;
    while i < |items|
      invariant 0 <= i <= |items| && ReadItems(items, map[]) == ReadItems(items[i..], byName)
    {
      var first := ReadItem(items[i]);
      assert items[i..][1..] == items[i + 1..];
      if !first.Ok? {
        return if first.ValueError? then ValueError else PublicTypeError;
      }
      byName := byName[first.value.0 := first.value.1];
      i := i + 1;
    }
    return Ok(byName);
  }

  predicate Complete(byName: map<Item, bool>) {
    forall item: Item :: item in byName
  }

  function ResultsFrom(byName: map<Item, bool>): Results
    requires Complete(byName)
  {
    Results(byName[MountsItem], byName[CursorItem], byName[CredentialItem], byName[SigningItem], byName[TrustItem], byName[SignerItem])
  }

  /** A list of texts that are all safe paths comes back; a value that is no text raises. */
  function ReadPresent(v: Val): Public<seq<string>> {
    if v == Null || v == List([]) then Ok([])
    else if !v.List? then ValueError
    else if exists i | 0 <= i < |v.items| :: !v.items[i].Str? then PublicTypeError
    else if SafePaths(TextItems(v.items)) != TextItems(v.items) then ValueError
    else Ok(TextItems(v.items))
  }

  function ReadRest(payload: Fields, pass: bool, r: Results): Public<Row> {
    var mounts, present := CleanMounts(Get(payload, Mounts)), ReadPresent(Get(payload, Present));
    var staged := Get(payload, NoneStaged) == Bool(true);
    if r.mounts && mounts == [] then ValueError
    else if Get(payload, SignerKid) != Null then ValueError
    else if !(staged && r.trust) && NoneStaged in payload && !staged then ValueError
    else if present.ValueError? then ValueError
    else if present.PublicTypeError? then PublicTypeError
    else if pass && (present.value != [] || !r.All()) then ValueError
    else Ok(Row(r, mounts, pass, staged && r.trust, present.value))
  }

  /** public_from_mapping: what may be written to disk, or the exception. */
  function PublicFromMapping(payload: Val): Public<Row> {
    if !payload.Dict? || Get(payload.fields, Schema) != Str(SCHEMA) then ValueError
    else
      var verdict, items := Get(payload.fields, Verdict), Get(payload.fields, Items);
      if !Hashable(verdict) then PublicTypeError
      else if !IsWord(verdict) || !items.List? then ValueError
      else
        var byName := ReadItems(items.items, map[]);
        if byName.PublicTypeError? then PublicTypeError
        else if byName.ValueError? || !Complete(byName.value) then ValueError
        else ReadRest(payload.fields, verdict == Str("PASS"), ResultsFrom(byName.value))
  }

  // ----- writing a row -----

  function EncodeItem(r: Results, item: Item): Val {
    Dict(map[Name := Str(NameText(item)), ResultKey := Word(ResultOf(r, item))])
  }

  function EncodeItems(r: Results): seq<Val> {
    seq(|ITEMS|, i requires 0 <= i < |ITEMS| => EncodeItem(r, ITEMS[i]))
  }

  function Always(row: Row): Fields {
    map[Items := List(EncodeItems(row.results)), Mounts := List(row.mounts), Schema := Str(SCHEMA), Verdict := Word(row.pass)]
  }

  function When(said: bool, key: Key, v: Val): Fields { if said then map[key := v] else map[] }

  /** The document: the signer key is there only when its item passed, the last two only when they say something. */
  function Document(row: Row): Fields {
    Always(row) + When(row.results.signer, SignerKid, Null) + When(row.noneStaged, NoneStaged, Bool(true)) +
    When(row.present != [], Present, List(AsTexts(row.present)))
  }

  lemma AddedReads(d: Fields, said: bool, key: Key, v: Val, other: Key)
    requires key !in d
    ensures Get(d + When(said, key, v), other) == if other == key then (if said then v else Null) else Get(d, other)
    ensures other in d + When(said, key, v) <==> other in d || (other == key && said)
  {
  }

  lemma OneRead(row: Row, key: Key)
    ensures var d := Document(row);
            && Get(d, key) == (if key == SignerKid then Null
                               else if key == NoneStaged then (if row.noneStaged then Bool(true) else Null)
                               else if key == Present then (if row.present != [] then List(AsTexts(row.present)) else Null)
                               else Get(Always(row), key))
            && (NoneStaged in d <==> row.noneStaged)
  {
    var a := Always(row);
    var b := a + When(row.results.signer, SignerKid, Null);
    var c := b + When(row.noneStaged, NoneStaged, Bool(true));
    AlwaysKeys(row);
    AddedTwice(a, row.results.signer, SignerKid, Null, NoneStaged, Present);
    AddedReads(b, row.noneStaged, NoneStaged, Bool(true), Present);
    AddedReads(b, row.noneStaged, NoneStaged, Bool(true), NoneStaged);
    AddedReads(c, row.present != [], Present, List(AsTexts(row.present)), NoneStaged);
    AddedReads(a, row.results.signer, SignerKid, Null, key);
    AddedReads(b, row.noneStaged, NoneStaged, Bool(true), key);
    AddedReads(c, row.present != [], Present, List(AsTexts(row.present)), key);
  }

  lemma AlwaysKeys(row: Row)
    ensures SignerKid !in Always(row) && NoneStaged !in Always(row) && Present !in Always(row)
  {
  }

  lemma AddedTwice(d: Fields, said: bool, key: Key, v: Val, one: Key, two: Key)
    requires key !in d && one !in d && two !in d && one != key && two != key
    ensures one !in d + When(said, key, v) && two !in d + When(said, key, v)
  {
  }

  lemma DocumentReads(row: Row)
    ensures var d := Document(row);
            && Get(d, Items) == List(EncodeItems(row.results)) && Get(d, Mounts) == List(row.mounts)
            && Get(d, Schema) == Str(SCHEMA) && Get(d, Verdict) == Word(row.pass)
            && Get(d, SignerKid) == Null && (NoneStaged in d <==> row.noneStaged)
            && Get(d, NoneStaged) == (if row.noneStaged then Bool(true) else Null)
            && Get(d, Present) == (if row.present != [] then List(AsTexts(row.present)) else Null)
  {
    OneRead(row, Items);
    OneRead(row, Mounts);
    OneRead(row, Schema);
    OneRead(row, Verdict);
    OneRead(row, SignerKid);
    OneRead(row, NoneStaged);
    OneRead(row, Present);
  }

  lemma ReadItemBack(r: Results, item: Item)
    ensures ReadItem(EncodeItem(r, item)) == Ok((item, ResultOf(r, item)))
  {
    FindName(item);
    WordReads(ResultOf(r, item));
    var f := EncodeItem(r, item).fields;
    assert Get(f, Name) == Str(NameText(item)) && Get(f, ResultKey) == Word(ResultOf(r, item));
  }

  function Place(item: Item): (i: nat)
    ensures i < |ITEMS| && ITEMS[i] == item
  {
    match item
    case MountsItem => 0
    case CursorItem => 1
    case CredentialItem => 2
    case SigningItem => 3
    case TrustItem => 4
    case SignerItem => 5
  }

  lemma PlaceOf(i: nat)
    requires i < |ITEMS|
    ensures Place(ITEMS[i]) == i
  {
  }

  ghost predicate Known(r: Results, byName: map<Item, bool>, item: Item) { item in byName && byName[item] == ResultOf(r, item) }

  lemma ReadItemsBack(r: Results)
    ensures ReadItems(EncodeItems(r), map[]).Ok?
    ensures var byName := ReadItems(EncodeItems(r), map[]).value; Complete(byName) && ResultsFrom(byName) == r
  {
    var items := EncodeItems(r);
    assert items[0..] == items;
    ReadFrom(r, items, 0, map[]);
    var byName := ReadItems(items, map[]).value;
    forall item: Item ensures item in byName {
      assert Known(r, byName, item);
    }
    assert Known(r, byName, MountsItem) && Known(r, byName, CursorItem) && Known(r, byName, CredentialItem);
    assert Known(r, byName, SigningItem) && Known(r, byName, TrustItem) && Known(r, byName, SignerItem);
  }

  /** Reading the written items from `i` on leaves every item with its result. */
  lemma {:induction false} ReadFrom(r: Results, items: seq<Val>, i: nat, byName: map<Item, bool>)
    requires items == EncodeItems(r) && i <= |ITEMS|
    requires forall item | Place(item) < i :: Known(r, byName, item)
    ensures ReadItems(items[i..], byName).Ok?
    ensures forall item :: Known(r, ReadItems(items[i..], byName).value, item)
    decreases |ITEMS| - i
  {
    if i < |ITEMS| {
      var next := byName[ITEMS[i] := ResultOf(r, ITEMS[i])];
      ReadItemBack(r, ITEMS[i]);
      PlaceOf(i);
      assert items[i..][1..] == items[i + 1..] && items[i..][0] == EncodeItem(r, ITEMS[i]);
      forall item | Place(item) < i + 1 ensures Known(r, next, item) {
        assert Place(item) == i ==> item == ITEMS[i];
      }
      ReadFrom(r, items, i + 1, next);
    }
  }

  lemma PresentBack(paths: seq<string>)
    requires forall i | 0 <= i < |paths| :: IsPath(paths[i])
    ensures ReadPresent(if paths != [] then List(AsTexts(paths)) else Null) == Ok(paths)
  {
    TextsOfTexts(paths);
    SafePathsStable(paths);
  }

  lemma RestBack(d: Fields, row: Row)
    requires RowOk(row) && Get(d, Mounts) == List(row.mounts) && Get(d, SignerKid) == Null
    requires NoneStaged in d <==> row.noneStaged
    requires Get(d, NoneStaged) == if row.noneStaged then Bool(true) else Null
    requires ReadPresent(Get(d, Present)) == Ok(row.present)
    ensures ReadRest(d, row.pass, row.results) == Ok(row)
  {
    assert CleanMounts(List(row.mounts)) == row.mounts;
  }

  lemma HeadBack(d: Fields, pass: bool, r: Results)
    requires Get(d, Schema) == Str(SCHEMA) && Get(d, Verdict) == Word(pass) && Get(d, Items) == List(EncodeItems(r))
    ensures PublicFromMapping(Dict(d)) == ReadRest(d, pass, r)
  {
    WordReads(pass);
    ReadItemsBack(r);
  }

  /** A row of the right kind is read back as itself, so its document is returned unchanged. */
  lemma DocumentFixed(row: Row)
    requires RowOk(row)
    ensures PublicFromMapping(Dict(Document(row))) == Ok(row)
  {
    var d := Document(row);
    DocumentReads(row);
    PresentBack(row.present);
    HeadBack(d, row.pass, row.results);
    RestBack(d, row);
  }

  /** Everything the host's reader can return is a fixed point of the public file's filter. */
  lemma AcceptedIsPublic(text: Text, want: Option<string>)
    requires Accept(text, want).Graded?
    ensures PublicFromMapping(Dict(Document(Accept(text, want).row))) == Ok(Accept(text, want).row)
  {
    if WellShaped(text) {
      GradeOk(AsDict(FactsOf(text)));
    }
    DocumentFixed(Accept(text, want).row);
  }

  lemma PresentSafe(v: Val)
    requires ReadPresent(v).Ok?
    ensures forall i | 0 <= i < |ReadPresent(v).value| :: IsPath(ReadPresent(v).value[i])
  {
  }

  lemma RestOk(payload: Fields, pass: bool, r: Results)
    requires ReadRest(payload, pass, r).Ok?
    ensures RowOk(ReadRest(payload, pass, r).value)
  {
    PresentSafe(Get(payload, Present));
  }

  /** On any payload, filtering the filtered document changes nothing. */
  lemma PublicIdempotent(payload: Val)
    requires PublicFromMapping(payload).Ok?
    ensures PublicFromMapping(Dict(Document(PublicFromMapping(payload).value))) == PublicFromMapping(payload)
  {
    var row := PublicFromMapping(payload).value;
    var byName := ReadItems(Get(payload.fields, Items).items, map[]).value;
    RestOk(payload.fields, Get(payload.fields, Verdict) == Str("PASS"), ResultsFrom(byName));
    DocumentFixed(row);
  }
}
