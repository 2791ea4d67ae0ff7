/**
 Reading a whole trace file: the label map between its two section lines
 (profile-func/trace_logger.cpp:14-21), and then the records.
 */
module TraceFile {
  import opened Wrappers
  import opened TraceText
  import opened Logger

  datatype File = File(labelMap: string, records: seq<Record>)

  /** The two section lines as a reader looks for them. */
  const MAP_START := "%%%% LABEL MAP START %%%%\n"
  const MAP_END := "%%%% LABEL MAP END %%%%\n\n"

  /** Where a part first occurs in a text. */
  function Find(text: string, part: string): (k: Option<nat>)
    ensures k.Some? ==> k.value + |part| <= |text|
    decreases text
  {
    if part <= text then Some(0)
    else if text == "" then None
    else
      match Find(text[1..], part)
      case None => None
      case Some(k) => Some(k + 1)
  }

  ghost predicate Holds(text: string, part: string) {
    exists k: nat :: k <= |text| && part <= text[k..]
  }

  /** The label map and what follows its section. */
  function ReadMap(text: string): Option<(string, string)> {
    if !(MAP_START <= text) then None
    else
      var body := text[|MAP_START|..];
      match Find(body, MAP_END)
      case None => None
      case Some(k) => Some((body[..k], body[k + |MAP_END|..]))
  }

  function ReadFile(text: string): Option<File> {
    match ReadMap(text)
    case None => None
    case Some((labelMap, rest)) =>
      match Decode(rest)
      case None => None
      case Some(rs) => Some(File(labelMap, rs))
  }

  // ---------- finding the end of the map ----------

  lemma {:induction false} FindFirst(text: string, part: string, k: nat)
    requires k <= |text| && part <= text[k..]
    requires forall j: nat :: j < k ==> !(part <= text[j..])
    ensures Find(text, part) == Some(k)
    decreases k
  {
    if k > 0 {
      assert !(part <= text[0..]) && text[0..] == text;
      forall j: nat | j < k - 1
        ensures !(part <= text[1..][j..])
      {
        assert text[1..][j..] == text[j + 1..];
      }
      assert text[1..][k - 1..] == text[k..];
      FindFirst(text[1..], part, k - 1);
    }
  }

  lemma {:induction false} FindNoLater(text: string, part: string, k: nat)
    requires k <= |text| && part <= text[k..]
    ensures Find(text, part).Some? && Find(text, part).value <= k
    decreases k
  {
    if k > 0 && !(part <= text) {
      assert text[1..][k - 1..] == text[k..];
      FindNoLater(text[1..], part, k - 1);
    } else if k == 0 {
      assert text[0..] == text;
    }
  }

  /** The end of the section line is not the beginning of another one. */
  lemma NoBorder(d: nat)
    requires 0 < d < |MAP_END|
    ensures MAP_END[d..] != MAP_END[..|MAP_END| - d]
  {
    var at := if d == 1 then 3 else 24 - d;
    assert MAP_END[d..][at] == MAP_END[d + at] && MAP_END[..|MAP_END| - d][at] == MAP_END[at];
    assert MAP_END[d + at] != MAP_END[at];
  }

  /** In front of the section line, there is none unless the map holds one. */
  lemma NotBefore(labelMap: string, rest: string, j: nat)
    requires j < |labelMap| && MAP_END <= (labelMap + MAP_END + rest)[j..]
    ensures Holds(labelMap, MAP_END)
  {
    var text := labelMap + MAP_END + rest;
    var d := |labelMap| - j;
    if d < |MAP_END| {
      assert MAP_END == text[j..][..|MAP_END|];
      assert MAP_END[d..] == text[j..][d..|MAP_END|] == text[|labelMap|..j + |MAP_END|] == MAP_END[..|MAP_END| - d];
      NoBorder(d);
    } else {
      assert labelMap[j..] == text[j..][..d];
      assert MAP_END <= labelMap[j..];
    }
  }

  lemma EndFound(labelMap: string, rest: string)
    ensures var k := Find(labelMap + MAP_END + rest, MAP_END);
            k.Some? && k.value <= |labelMap| && (k.value == |labelMap| <==> !Holds(labelMap, MAP_END))
  {
    var body := labelMap + MAP_END + rest;
    assert MAP_END <= body[|labelMap|..];
    if Holds(labelMap, MAP_END) {
      var k: nat :| k <= |labelMap| && MAP_END <= labelMap[k..];
      assert labelMap[k..] <= body[k..];
      FindNoLater(body, MAP_END, k);
      assert |MAP_END| == 25;
    } else {
      forall j: nat | j < |labelMap|
        ensures !(MAP_END <= body[j..])
      {
        if MAP_END <= body[j..] {
          NotBefore(labelMap, rest, j);
        }
      }
      FindFirst(body, MAP_END, |labelMap|);
    }
  }

  /** The reader gets the registered map back if and only if that does not hold the line that ends
      the section. */
  lemma MapRead(labelMap: string, rest: string)
    ensures ReadMap(MAP_START + labelMap + MAP_END + rest) == Some((labelMap, rest)) <==> !Holds(labelMap, MAP_END)
    ensures ReadMap(MAP_START + labelMap + MAP_END + rest).Some?
  {
    var body := labelMap + MAP_END + rest;
    assert (MAP_START + labelMap + MAP_END + rest)[|MAP_START|..] == body;
    EndFound(labelMap, rest);
    assert body[..|labelMap|] == labelMap && body[|labelMap| + |MAP_END|..] == rest;
  }

  // ---------- whole files ----------

  /** A file that starts with the three writes of the label map. */
  lemma HeadedText(labelMap: string, content: seq<string>)
    requires LabelMapPieces(labelMap) <= content
    ensures Concat(content) == MAP_START + labelMap + MAP_END + Concat(content[3..])
  {
    var ps := LabelMapPieces(labelMap);
    assert content == ps + content[3..];
    ConcatAppend(ps, content[3..]);
    assert Concat(ps) == MAP_START + labelMap + MAP_END by {
      assert ps[1..] == [labelMap, MAP_END] && ps[1..][1..] == [MAP_END] && ps[1..][1..][1..] == [];
      assert Concat([MAP_END]) == MAP_END + "";
    }
  }

  /** Every file with a complete section gives the registered label map back. */
  lemma HeadedRead(labelMap: string, content: seq<string>)
    requires LabelMapPieces(labelMap) <= content
    ensures ReadMap(Concat(content)) == Some((labelMap, Concat(content[3..]))) <==> !Holds(labelMap, MAP_END)
  {
    HeadedText(labelMap, content);
    MapRead(labelMap, Concat(content[3..]));
  }

  /** And then the records, if they are printable. */
  lemma FileRead(labelMap: string, content: seq<string>, rs: seq<Record>)
    requires content == LabelMapPieces(labelMap) + AllPieces(rs) && forall r <- rs :: Printable(r)
    ensures Decode(Concat(content[3..])) == Some(rs)
    ensures ReadFile(Concat(content)) == Some(File(labelMap, rs)) <==> !Holds(labelMap, MAP_END)
  {
    assert content[3..] == AllPieces(rs);
    DecodeTrace(rs);
    HeadedText(labelMap, content);
    MapRead(labelMap, Concat(content[3..]));
  }
}
