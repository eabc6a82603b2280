/** The library's exception type `common::error::Error` and its subclass
    `common::curl::CurlError`. An error records where it was raised (function,
    line, file) and a text; its `what()` message is built once from all four. */
module CommonError {
  import opened Wrappers
  import opened Text

  /** A libcurl `CURLcode`; its numeric values belong to libcurl. */
  type CurlCode = int

  /** The fields an `Error` keeps; `What` is derived from them. */
  datatype Error = Error(funcName: string, line: Uint32, fileName: string, text: string)

  // ---------------------------------------------------------------------------
  // common::error::Error

  /** The constructor `Error(funcName, line, fileName, text)`. */
  function MakeError(funcName: string, line: Uint32, fileName: string, text: string): (e: Error)
    ensures GetFunction(e) == funcName
    ensures GetLine(e) == line
    ensures GetFileName(e) == fileName
    ensures GetText(e) == text
  {
    Error(funcName, line, fileName, text)
  }

  function GetFunction(e: Error): string {
    e.funcName
  }

  function GetLine(e: Error): Uint32 {
    e.line
  }

  function GetFileName(e: Error): string {
    e.fileName
  }

  /** The bare text the error was raised with, not the formatted message. */
  function GetText(e: Error): string {
    e.text
  }

  /** The `std::runtime_error` message: the format
      "%1% in line %2%, function %3%, file %4%\n" filled with text, line,
      function and file. */
  function What(e: Error): (w: string)
    ensures |w| == |e.text| + |NatToString(e.line)| + |e.funcName| + |e.fileName| + 28
    ensures w[..|e.text|] == e.text && w[|w| - 1] == '\n'
  {
    e.text + " in line " + NatToString(e.line) + ", function " + e.funcName
    + ", file " + e.fileName + "\n"
  }

  /** The message begins with the text, carries the line number in decimal
      right after " in line ", and that number reads back as the line. */
  lemma WhatCarriesTextAndLine(funcName: string, line: Uint32, fileName: string, text: string)
    ensures var e := MakeError(funcName, line, fileName, text);
      var w := What(e);
      var digits := NatToString(line);
      && w[..|text|] == text
      && w[|text|..|text| + 9] == " in line "
      && w[|text| + 9..|text| + 9 + |digits|] == digits
      && ParseNat(w[|text| + 9..|text| + 9 + |digits|]) == Some(line)
      && w[|w| - 1] == '\n'
  {
    ParseNatToString(line);
  }

  /** The whole message, field by field at its position: the text,
      " in line ", the decimal line, ", function ", the function,
      ", file ", the file, and a final newline. */
  lemma WhatLayout(e: Error)
    ensures var w := What(e);
      var d := NatToString(e.line);
      var a := |e.text| + 9;
      var b := a + |d| + 11;
      var c := b + |e.funcName| + 7;
      && w[..|e.text|] == e.text
      && w[|e.text|..a] == " in line "
      && w[a..a + |d|] == d
      && w[a + |d|..b] == ", function "
      && w[b..b + |e.funcName|] == e.funcName
      && w[b + |e.funcName|..c] == ", file "
      && w[c..c + |e.fileName|] == e.fileName
      && c + |e.fileName| + 1 == |w| && w[|w| - 1] == '\n'
  {
    var w := What(e);
    var d := NatToString(e.line);
    var a := |e.text| + 9;
    var b := a + |d| + 11;
    var c := b + |e.funcName| + 7;
    var p1 := e.text + " in line ";
    var p2 := p1 + d;
    var p3 := p2 + ", function ";
    var p4 := p3 + e.funcName;
    var p5 := p4 + ", file ";
    var p6 := p5 + e.fileName;
    assert w == p6 + "\n";
    assert w[..|p6|] == p6;
    assert p6[..|p5|] == p5;
    assert p5[..|p4|] == p4;
    assert p4[..|p3|] == p3;
    assert p3[..|p2|] == p2;
    assert p2[..|p1|] == p1;
  }

  /** Two errors that differ only in their line have different messages. */
  lemma WhatDistinguishesLines(funcName: string, l1: Uint32, l2: Uint32, fileName: string, text: string)
    requires l1 != l2
    ensures What(MakeError(funcName, l1, fileName, text)) != What(MakeError(funcName, l2, fileName, text))
  {
    LinesDistinguishWhat(MakeError(funcName, l1, fileName, text), MakeError(funcName, l2, fileName, text));
  }

  /** Errors that differ only in their line have different messages. */
  lemma LinesDistinguishWhat(e1: Error, e2: Error)
    requires e1 == e2.(line := e1.line) && e1.line != e2.line
    ensures What(e1) != What(e2)
  {
    if |NatToString(e1.line)| == |NatToString(e2.line)| {
      NatToStringInjective(e1.line, e2.line);
      WhatLayout(e1);
      WhatLayout(e2);
      DifferentSlices(What(e1), What(e2), |e1.text| + 9, |NatToString(e1.line)|);
    } else {
      assert |What(e1)| != |What(e2)|;
    }
  }

  /** Strings that differ on a common range differ. */
  lemma DifferentSlices(w1: string, w2: string, k: nat, n: nat)
    requires k + n <= |w1| && k + n <= |w2| && w1[k..k + n] != w2[k..k + n]
    ensures w1 != w2
  {
  }

  // ---------------------------------------------------------------------------
  // common::curl::CurlError

  const CurlErrorPrefix := "Curl error: "

  /** `CurlError(text, fileName, funcName, line)`: text formatted with
      "Curl error: %1%". */
  function CurlTextError(text: string, fileName: string, funcName: string, line: Uint32): (e: Error)
    ensures GetText(e) == CurlErrorPrefix + text
    ensures GetFunction(e) == funcName && GetLine(e) == line && GetFileName(e) == fileName
  {
    MakeError(funcName, line, fileName, CurlErrorPrefix + text)
  }

  /** `CurlError(code, fileName, funcName, line)`: libcurl's description of
      `code` formatted with "Curl error: %1%". `strerror` stands for
      `curl_easy_strerror`. */
  function CurlCodeError(code: CurlCode, strerror: CurlCode -> string,
                         fileName: string, funcName: string, line: Uint32): (e: Error)
    ensures GetText(e) == CurlErrorPrefix + strerror(code)
    ensures GetFunction(e) == funcName && GetLine(e) == line && GetFileName(e) == fileName
  {
    MakeError(funcName, line, fileName, CurlErrorPrefix + strerror(code))
  }

  /** `CurlError(opt, value, code, fileName, funcName, line)` for a failed
      `curl_easy_setopt`: "Error settings value %1% to %2% parameter: %3%"
      filled with the value (already rendered as text), the option number and
      libcurl's description of `code`. */
  function CurlSetOptError(opt: Uint32, value: string, code: CurlCode, strerror: CurlCode -> string,
                           fileName: string, funcName: string, line: Uint32): (e: Error)
    ensures GetText(e) == "Error settings value " + value + " to " + NatToString(opt)
                          + " parameter: " + strerror(code)
    ensures GetFunction(e) == funcName && GetLine(e) == line && GetFileName(e) == fileName
  {
    MakeError(funcName, line, fileName,
              "Error settings value " + value + " to " + NatToString(opt) + " parameter: " + strerror(code))
  }

  /** The code constructor is the text constructor applied to libcurl's
      description of the code. */
  lemma CurlCodeErrorIsTextError(code: CurlCode, strerror: CurlCode -> string,
                                 fileName: string, funcName: string, line: Uint32)
    ensures CurlCodeError(code, strerror, fileName, funcName, line)
         == CurlTextError(strerror(code), fileName, funcName, line)
  {
  }

  /** The curl constructors keep the caller's text recoverable: stripping the
      fixed prefix from the text gives back what was passed in. */
  lemma CurlTextErrorRecoversText(text: string, fileName: string, funcName: string, line: Uint32)
    ensures var t := GetText(CurlTextError(text, fileName, funcName, line));
      |t| >= |CurlErrorPrefix| && t[..|CurlErrorPrefix|] == CurlErrorPrefix
      && t[|CurlErrorPrefix|..] == text
  {
  }
}
