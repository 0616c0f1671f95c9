/**
 * The `ExportResult` record: seven nullable fields (None plays Java's null),
 * its setters, and its `toString`. `completedAt` is a `LocalDateTime`, carried
 * here as the text its own `toString` produces.
 */
module ExportResults {
  import opened Wrappers
  import Strings

  datatype ExportResult = ExportResult(
    taskId: Option<int>,
    fileName: Option<string>,
    downloadUrl: Option<string>,
    totalRecords: Option<int>,
    status: Option<string>,
    completedAt: Option<string>,
    fileSizeBytes: Option<int>)

  /** The no-argument constructor: every field left null. */
  function Unset(): (r: ExportResult)
    ensures r.taskId.None? && r.fileName.None? && r.downloadUrl.None?
    ensures r.totalRecords.None? && r.status.None? && r.completedAt.None?
    ensures r.fileSizeBytes.None?
  {
    ExportResult(None, None, None, None, None, None, None)
  }

  // Setters. Each one changes its own field and no other.

  function SetTaskId(e: ExportResult, v: Option<int>): (r: ExportResult)
    ensures r.taskId == v
    ensures r.fileName == e.fileName && r.downloadUrl == e.downloadUrl
    ensures r.totalRecords == e.totalRecords && r.status == e.status
    ensures r.completedAt == e.completedAt && r.fileSizeBytes == e.fileSizeBytes
  {
    e.(taskId := v)
  }

  function SetFileName(e: ExportResult, v: Option<string>): (r: ExportResult)
    ensures r.fileName == v
    ensures r.taskId == e.taskId && r.downloadUrl == e.downloadUrl
    ensures r.totalRecords == e.totalRecords && r.status == e.status
    ensures r.completedAt == e.completedAt && r.fileSizeBytes == e.fileSizeBytes
  {
    e.(fileName := v)
  }

  function SetDownloadUrl(e: ExportResult, v: Option<string>): (r: ExportResult)
    ensures r.downloadUrl == v
    ensures r.taskId == e.taskId && r.fileName == e.fileName
    ensures r.totalRecords == e.totalRecords && r.status == e.status
    ensures r.completedAt == e.completedAt && r.fileSizeBytes == e.fileSizeBytes
  {
    e.(downloadUrl := v)
  }

  function SetTotalRecords(e: ExportResult, v: Option<int>): (r: ExportResult)
    ensures r.totalRecords == v
    ensures r.taskId == e.taskId && r.fileName == e.fileName
    ensures r.downloadUrl == e.downloadUrl && r.status == e.status
    ensures r.completedAt == e.completedAt && r.fileSizeBytes == e.fileSizeBytes
  {
    e.(totalRecords := v)
  }

  function SetStatus(e: ExportResult, v: Option<string>): (r: ExportResult)
    ensures r.status == v
    ensures r.taskId == e.taskId && r.fileName == e.fileName
    ensures r.downloadUrl == e.downloadUrl && r.totalRecords == e.totalRecords
    ensures r.completedAt == e.completedAt && r.fileSizeBytes == e.fileSizeBytes
  {
    e.(status := v)
  }

  function SetCompletedAt(e: ExportResult, v: Option<string>): (r: ExportResult)
    ensures r.completedAt == v
    ensures r.taskId == e.taskId && r.fileName == e.fileName
    ensures r.downloadUrl == e.downloadUrl && r.totalRecords == e.totalRecords
    ensures r.status == e.status && r.fileSizeBytes == e.fileSizeBytes
  {
    e.(completedAt := v)
  }

  function SetFileSizeBytes(e: ExportResult, v: Option<int>): (r: ExportResult)
    ensures r.fileSizeBytes == v
    ensures r.taskId == e.taskId && r.fileName == e.fileName
    ensures r.downloadUrl == e.downloadUrl && r.totalRecords == e.totalRecords
    ensures r.status == e.status && r.completedAt == e.completedAt
  {
    e.(fileSizeBytes := v)
  }

  /** Setting every field of a record made by the no-argument constructor
      gives the record the 7-argument constructor makes from the same values. */
  lemma SettersBuildRecord(taskId: Option<int>, fileName: Option<string>, downloadUrl: Option<string>,
                           totalRecords: Option<int>, status: Option<string>, completedAt: Option<string>,
                           fileSizeBytes: Option<int>)
    ensures
      var e0 := Unset();
      var e1 := SetFileName(SetTaskId(e0, taskId), fileName);
      var e2 := SetTotalRecords(SetDownloadUrl(e1, downloadUrl), totalRecords);
      var e3 := SetFileSizeBytes(SetCompletedAt(SetStatus(e2, status), completedAt), fileSizeBytes);
      e3 == ExportResult(taskId, fileName, downloadUrl, totalRecords, status, completedAt, fileSizeBytes)
  {
  }

  /** Java's `"" + s` for a nullable String. */
  function ShowText(o: Option<string>): string {
    match o
    case None => "null"
    case Some(s) => s
  }

  /** Java's `"" + n` for a nullable Long. */
  function ShowLong(o: Option<int>): string {
    match o
    case None => "null"
    case Some(n) => Strings.IntToDecimal(n)
  }

  /** `toString`, written the way the source concatenates it: it opens with
      the class name and closes with a brace. */
  function ToString(e: ExportResult): (s: string)
    ensures |s| > 13 && s[..13] == "ExportResult{" && s[|s| - 1] == '}'
  {
    "ExportResult{"
    + ("taskId=" + ShowLong(e.taskId))
    + (", fileName='" + ShowText(e.fileName) + "'")
    + (", downloadUrl='" + ShowText(e.downloadUrl) + "'")
    + (", totalRecords=" + ShowLong(e.totalRecords))
    + (", status='" + ShowText(e.status) + "'")
    + (", completedAt=" + ShowText(e.completedAt))
    + (", fileSizeBytes=" + ShowLong(e.fileSizeBytes))
    + "}"
  }

  /** One `name=value` item of the rendering; `quoted` wraps the value in single quotes. */
  datatype FieldText = FieldText(name: string, quoted: bool, text: string)

  /** The fields in declaration order, with the three String fields quoted. */
  function Fields(e: ExportResult): seq<FieldText> {
    [ FieldText("taskId", false, ShowLong(e.taskId)),
      FieldText("fileName", true, ShowText(e.fileName)),
      FieldText("downloadUrl", true, ShowText(e.downloadUrl)),
      FieldText("totalRecords", false, ShowLong(e.totalRecords)),
      FieldText("status", true, ShowText(e.status)),
      FieldText("completedAt", false, ShowText(e.completedAt)),
      FieldText("fileSizeBytes", false, ShowLong(e.fileSizeBytes)) ]
  }

  function RenderField(f: FieldText): string {
    f.name + "=" + (if f.quoted then "'" + f.text + "'" else f.text)
  }

  function RenderFields(fs: seq<FieldText>): (r: seq<string>)
    ensures |r| == |fs|
    ensures forall i :: 0 <= i < |fs| ==> r[i] == RenderField(fs[i])
  {
    seq(|fs|, i requires 0 <= i < |fs| => RenderField(fs[i]))
  }

  /** `toString` is the field table, in declaration order, as `name=value`
      items separated by ", " inside `ExportResult{...}`; exactly the String
      fields fileName, downloadUrl and status are single-quoted. */
  lemma ToStringIsFieldTable(e: ExportResult)
    ensures ToString(e) == "ExportResult{" + Strings.Join(RenderFields(Fields(e)), ", ") + "}"
    ensures |Fields(e)| == 7
    ensures forall i :: 0 <= i < 7 ==>
      (Fields(e)[i].quoted <==> Fields(e)[i].name in ["fileName", "downloadUrl", "status"])
  {
    var r := RenderFields(Fields(e));
    RenderedItemsA(e);
    RenderedItemsB(e);
    RenderedItemsC(e);
    var head := "ExportResult{";
    assert r[..1] == [r[0]];
    var p1 := head + ("taskId=" + ShowLong(e.taskId));
    var p2 := p1 + (", fileName='" + ShowText(e.fileName) + "'");
    assert r[..2] == r[..1] + [r[1]];
    Extend(head, r[..1], p1, r[1], ", fileName='" + ShowText(e.fileName) + "'", p2);
    var p3 := p2 + (", downloadUrl='" + ShowText(e.downloadUrl) + "'");
    assert r[..3] == r[..2] + [r[2]];
    Extend(head, r[..2], p2, r[2], ", downloadUrl='" + ShowText(e.downloadUrl) + "'", p3);
    var p4 := p3 + (", totalRecords=" + ShowLong(e.totalRecords));
    assert r[..4] == r[..3] + [r[3]];
    Extend(head, r[..3], p3, r[3], ", totalRecords=" + ShowLong(e.totalRecords), p4);
    var p5 := p4 + (", status='" + ShowText(e.status) + "'");
    assert r[..5] == r[..4] + [r[4]];
    Extend(head, r[..4], p4, r[4], ", status='" + ShowText(e.status) + "'", p5);
    var p6 := p5 + (", completedAt=" + ShowText(e.completedAt));
    assert r[..6] == r[..5] + [r[5]];
    Extend(head, r[..5], p5, r[5], ", completedAt=" + ShowText(e.completedAt), p6);
    var p7 := p6 + (", fileSizeBytes=" + ShowLong(e.fileSizeBytes));
    assert r[..7] == r[..6] + [r[6]];
    Extend(head, r[..6], p6, r[6], ", fileSizeBytes=" + ShowLong(e.fileSizeBytes), p7);
    assert r[..7] == r;
  }

  /** The first rendered items, each as the source spells its piece of the
      concatenation. */
  lemma RenderedItemsA(e: ExportResult)
    ensures |RenderFields(Fields(e))| == 7
    ensures RenderFields(Fields(e))[0] == "taskId=" + ShowLong(e.taskId)
    ensures ", fileName='" + ShowText(e.fileName) + "'" == ", " + RenderFields(Fields(e))[1]
    ensures ", downloadUrl='" + ShowText(e.downloadUrl) + "'" == ", " + RenderFields(Fields(e))[2]
  {
    var fs := Fields(e);
    var r := RenderFields(fs);
    assert r[0] == RenderField(fs[0]);
    assert r[1] == RenderField(fs[1]);
    assert r[2] == RenderField(fs[2]);
    QuotedItem(", fileName='", "fileName", ShowText(e.fileName));
    QuotedItem(", downloadUrl='", "downloadUrl", ShowText(e.downloadUrl));
  }

  lemma RenderedItemsB(e: ExportResult)
    ensures |RenderFields(Fields(e))| == 7
    ensures ", totalRecords=" + ShowLong(e.totalRecords) == ", " + RenderFields(Fields(e))[3]
    ensures ", status='" + ShowText(e.status) + "'" == ", " + RenderFields(Fields(e))[4]
  {
    var fs := Fields(e);
    var r := RenderFields(fs);
    assert r[3] == RenderField(fs[3]);
    assert r[4] == RenderField(fs[4]);
    PlainItem(", totalRecords=", "totalRecords", ShowLong(e.totalRecords));
    QuotedItem(", status='", "status", ShowText(e.status));
  }

  lemma RenderedItemsC(e: ExportResult)
    ensures |RenderFields(Fields(e))| == 7
    ensures ", completedAt=" + ShowText(e.completedAt) == ", " + RenderFields(Fields(e))[5]
    ensures ", fileSizeBytes=" + ShowLong(e.fileSizeBytes) == ", " + RenderFields(Fields(e))[6]
  {
    var fs := Fields(e);
    var r := RenderFields(fs);
    assert r[5] == RenderField(fs[5]);
    assert r[6] == RenderField(fs[6]);
    PlainItem(", completedAt=", "completedAt", ShowText(e.completedAt));
    PlainItem(", fileSizeBytes=", "fileSizeBytes", ShowLong(e.fileSizeBytes));
  }

  /** A quoted item as the source spells it: the lead text carries the
      separator, the name, '=' and the opening quote. */
  lemma QuotedItem(lead: string, name: string, text: string)
    requires lead == ", " + name + "='"
    ensures lead + text + "'" == ", " + RenderField(FieldText(name, true, text))
  {
    Strings.Assoc(", " + name, "='", text);
    Strings.Assoc(", " + name, "=", "'" + text);
  }

  /** An unquoted item as the source spells it. */
  lemma PlainItem(lead: string, name: string, text: string)
    requires lead == ", " + name + "="
    ensures lead + text == ", " + RenderField(FieldText(name, false, text))
  {
  }

  /** One step of the rendering: appending the next item to a prefix already
      known to be the joined items so far. */
  lemma Extend(head: string, items: seq<string>, p: string, item: string, tail: string, q: string)
    requires |items| > 0
    requires head + Strings.Join(items, ", ") == p
    requires tail == ", " + item
    requires q == p + tail
    ensures head + Strings.Join(items + [item], ", ") == q
  {
    JoinAppend(head, items, item, ", ");
  }

  lemma JoinAppend(head: string, items: seq<string>, item: string, sep: string)
    requires |items| > 0
    ensures head + Strings.Join(items + [item], sep) == (head + Strings.Join(items, sep)) + (sep + item)
  {
    Strings.JoinSnoc(items, item, sep);
    var j := Strings.Join(items, sep);
    Strings.Assoc(j, sep, item);
    Strings.Assoc(head, j, sep + item);
  }
}
