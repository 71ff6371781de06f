/** One session written out: the lines a client sends, and what they leave behind. */
module Session {
  import opened Common
  import opened AtText
  import opened Upload
  import opened Delivery
  import Crc16
  import CrcVectors
  import Md5Vectors
  import UploadReplies

  const DIGEST := "900150983cd24fb0d6963f7d28e17f72"
  const OPENING := "AT+PREUPLOAD=fw,3," + DIGEST
  const FRAME := "AT+UPLOAD=616263,514A,3"

  lemma DecimalOfThree()
    ensures Decimal(3) == "3"
  {
  }

  lemma HexOfAbc()
    ensures Hex([0x61, 0x62, 0x63]) == "616263"
  {
    var data: seq<Byte> := [0x61, 0x62, 0x63];
    assert HexByte(0x61) == "61" && HexByte(0x62) == "62" && HexByte(0x63) == "63";
    hide HexByte;
    assert data[1..] == [0x62, 0x63] && data[1..][1..] == [0x63] && data[1..][1..][1..] == [];
    assert Hex(data[1..][1..]) == HexByte(0x63);
    assert Hex(data[1..]) == HexByte(0x62) + HexByte(0x63);
  }

  lemma HexOfDigest()
    ensures Hex4(0x514A) == "514A"
  {
  }

  lemma RequestText()
    ensures "AT+PREUPLOAD=" + "fw" + "," + "3" + "," == "AT+PREUPLOAD=fw,3,"
  {
  }

  lemma FrameText()
    ensures "AT+UPLOAD=" + ("616263" + "," + "514A" + "," + "3") == FRAME
  {
  }

  /** The client's lines for "abc" under the name "fw". */
  lemma LinesAre()
    ensures var data: seq<Byte> := [0x61, 0x62, 0x63];
      PreuploadLine("fw", 3, Md5Hex(data)) == OPENING && ClientFrame(data) == FRAME
  {
    hide Md5Hex, Crc16.Crc, Decimal, Hex, Hex4;
    DecimalOfThree();
    OpeningIs();
    FrameText();
    CrcVectors.CrcOfAbc();
    HexOfAbc();
    HexOfDigest();
  }

  lemma OpeningIs()
    ensures PreuploadLine("fw", 3, Md5Hex([0x61, 0x62, 0x63])) == OPENING
  {
    hide Md5Hex, Decimal;
    DecimalOfThree();
    Md5Vectors.AbcDigest();
    RequestText();
  }

  lemma NameIsValid()
    ensures ValidName("fw") && ',' !in "fw"
  {
    UploadReplies.ContainsTwoDots("fw");
    hide Contains;
  }

  lemma PathsAre()
    ensures PathIn("/up", "fw") == "/up/fw" && PathIn("/up", TmpName("fw")) == "/up/upload_fw.tmp"
  {
  }

  /** From the text of three lines to the file: it is published under its name, and the temporary one is gone. */
  lemma AbcIsPublished(w: World, out: Outcome, other: string -> Byte)
    requires !w.up.active && out.opens && out.writes >= 3 && out.lost == 0 && out.renames
    ensures var data: seq<Byte> := [0x61, 0x62, 0x63];
      var cs := [Call(OPENING, out), Call(FRAME, out)];
      var s := Process(Run(w, "/up", cs, other), "/up", Call("AT+UPLOADDONE", out), other);
      && s.reply == Published("fw", 3, DIGEST)
      && s.world == World(IDLE, w.files["/up/fw" := data] - {"/up/upload_fw.tmp"}, w.fopens + 1, w.fcloses + 1)
  {
    hide Process, Run, Md5Hex, ValidName, PreuploadLine, ClientFrame, Parse, Crc16.Crc, PathIn, TmpName,
      Concat;
    var data: seq<Byte> := [0x61, 0x62, 0x63];
    LinesAre();
    NameIsValid();
    PathsAre();
    Md5Vectors.AbcDigest();
    OneChunk(data);
    ChunksDelivered(w, "/up", "fw", [data], out, out, out, other);
    assert [Call(OPENING, out)] + FrameCalls([data], out) == [Call(OPENING, out), Call(FRAME, out)];
  }

  lemma OneChunk(data: seq<Byte>)
    ensures Concat([data]) == data
  {
    assert [data][1..] == [];
  }
}
