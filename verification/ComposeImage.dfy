/** scripts/edge_image_admission.py, replace_service_image: a line scanner that points
    one Compose service at another image. */
module ComposeImage {

  import opened Common

  /** The rewritten text, or the number of images found when it is not one. */
  datatype Rewriting = Rendered(text: string) | Miscounted(found: nat)

  // ----- text and lines

  /** The characters that end a line. */
  predicate IsBreak(c: char) {
    '\n' <= c <= '\r' || '\U{1c}' <= c <= '\U{1e}' || c == '\U{85}' || c == '\U{2028}' || c == '\U{2029}'
  }

  predicate IsSpace(c: char) {
    || IsBreak(c) || c == ' ' || c == '\t' || c == '\U{1f}' || c == '\U{a0}' || c == '\U{1680}'
    || '\U{2000}' <= c <= '\U{200a}' || c == '\U{202f}' || c == '\U{205f}' || c == '\U{3000}'
  }

  predicate OneLine(s: string) {
    forall i :: 0 <= i < |s| ==> !IsBreak(s[i])
  }

  predicate NoSpace(s: string) {
    forall i :: 0 <= i < |s| ==> !IsSpace(s[i])
  }

  function LineEnd(text: string): (n: nat)
    ensures n <= |text| && (forall i :: 0 <= i < n ==> !IsBreak(text[i])) && (n < |text| ==> IsBreak(text[n]))
  {
    if text == "" || IsBreak(text[0]) then 0 else 1 + LineEnd(text[1..])
  }

  function SplitLines(text: string): (lines: seq<string>)
    ensures forall i :: 0 <= i < |lines| ==> OneLine(lines[i])
  {
    if text == "" then []
    else
      var n := LineEnd(text);
      if n == |text| then [text[..n]]
      else if text[n] == '\r' && n + 1 < |text| && text[n + 1] == '\n' then [text[..n]] + SplitLines(text[n + 2..])
      else [text[..n]] + SplitLines(text[n + 1..])
  }

  predicate EndsInNewline(text: string) {
    text != "" && text[|text| - 1] == '\n'
  }

  /** Every line followed by a newline. */
  function Terminated(lines: seq<string>): string {
    if lines == [] then "" else lines[0] + "\n" + Terminated(lines[1..])
  }

  /** The lines with newlines between them, and one at the end if asked for. */
  function Render(lines: seq<string>, newline: bool): string {
    if lines == [] then if newline then "\n" else ""
    else if newline then Terminated(lines)
    else Terminated(lines[..|lines| - 1]) + lines[|lines| - 1]
  }

  lemma SplitFirst(line: string, rest: string)
    requires OneLine(line)
    ensures SplitLines(line + "\n" + rest) == [line] + SplitLines(rest)
  {
    var text := line + "\n" + rest;
    var n := LineEnd(text);
    assert text[|line|] == '\n' && forall i :: 0 <= i < |line| ==> text[i] == line[i];
    assert n == |line|;
    assert text[..n] == line && text[n + 1..] == rest;
  }

  lemma SplitLast(last: string)
    requires OneLine(last)
    ensures SplitLines(last) == if last == "" then [] else [last]
  {
    if last != "" {
      assert LineEnd(last) == |last|;
      assert last[..|last|] == last;
    }
  }

  lemma {:induction false} SplitTerminated(lines: seq<string>, last: string)
    requires forall i :: 0 <= i < |lines| ==> OneLine(lines[i])
    requires OneLine(last)
    ensures SplitLines(Terminated(lines) + last) == lines + if last == "" then [] else [last]
  {
    if lines == [] {
      SplitLast(last);
      assert Terminated(lines) + last == last;
    } else {
      SplitTerminated(lines[1..], last);
      var rest := Terminated(lines[1..]) + last;
      SplitFirst(lines[0], rest);
      assert Terminated(lines) + last == lines[0] + "\n" + rest;
      assert lines == [lines[0]] + lines[1..];
    }
  }

  lemma {:induction false} TerminatedEnds(lines: seq<string>)
    requires lines != []
    ensures EndsInNewline(Terminated(lines))
  {
    if |lines| > 1 {
      TerminatedEnds(lines[1..]);
    }
  }

  /** Splitting a rendered text gives its lines back, except that an empty last line
      without a newline of its own is read as the end of the line before. */
  lemma SplitRendered(lines: seq<string>, newline: bool)
    requires lines != [] && forall i :: 0 <= i < |lines| ==> OneLine(lines[i])
    requires lines != [""] || newline
    ensures var text := Render(lines, newline);
      if newline || lines[|lines| - 1] != ""
      then SplitLines(text) == lines && EndsInNewline(text) == newline
      else SplitLines(text) == lines[..|lines| - 1] && EndsInNewline(text) && text == Render(lines[..|lines| - 1], true)
  {
    var n := |lines| - 1;
    if newline {
      SplitTerminated(lines, "");
      TerminatedEnds(lines);
      assert Terminated(lines) + "" == Terminated(lines);
    } else {
      SplitTerminated(lines[..n], lines[n]);
      assert lines == lines[..n] + [lines[n]];
      var text := Render(lines, false);
      if lines[n] == "" {
        TerminatedEnds(lines[..n]);
        assert text == Terminated(lines[..n]);
      } else {
        assert text[|text| - 1] == lines[n][|lines[n]| - 1];
      }
    }
  }

  // ----- what the scanner sees in one line

  function SpaceLen(s: string): (n: nat)
    ensures n <= |s| && (forall i :: 0 <= i < n ==> IsSpace(s[i])) && (n < |s| ==> !IsSpace(s[n]))
  {
    if s == "" || !IsSpace(s[0]) then 0 else 1 + SpaceLen(s[1..])
  }

  /** The number of leading blanks, tabs not counted. */
  function BlankLen(s: string): (n: nat)
    ensures n <= |s| && (forall i :: 0 <= i < n ==> s[i] == ' ') && (n < |s| ==> s[n] != ' ')
  {
    if s == "" || s[0] != ' ' then 0 else 1 + BlankLen(s[1..])
  }

  predicate IsNameChar(c: char) {
    'A' <= c <= 'Z' || 'a' <= c <= 'z' || '0' <= c <= '9' || c == '_' || c == '.' || c == '-'
  }

  function NameLen(s: string): (n: nat)
    ensures n <= |s| && (forall i :: 0 <= i < n ==> IsNameChar(s[i])) && (n < |s| ==> !IsNameChar(s[n]))
  {
    if s == "" || !IsNameChar(s[0]) then 0 else 1 + NameLen(s[1..])
  }

  function StripEnd(s: string): string {
    if s != "" && IsSpace(s[|s| - 1]) then StripEnd(s[..|s| - 1]) else s
  }

  function Strip(s: string): string {
    StripEnd(s[SpaceLen(s)..])
  }

  /** The name a line gives a service: a name and a colon, then nothing but a comment. */
  function ServiceName(line: string): Option<string> {
    var rest := line[SpaceLen(line)..];
    var n := NameLen(rest);
    if 0 < n < |rest| && rest[n] == ':' && Trails(rest[n + 1..]) then Some(rest[..n]) else None
  }

  predicate Trails(s: string) {
    var n := SpaceLen(s);
    n == |s| || s[n] == '#'
  }

  /** The line gives an image: one word after "image:". */
  predicate IsImage(line: string) {
    var rest := line[SpaceLen(line)..];
    "image:" <= rest && OneWord(rest[6..])
  }

  predicate OneWord(s: string) {
    var from := SpaceLen(s);
    from < |s| && SpaceLen(s[from + WordLen(s[from..])..]) == |s| - from - WordLen(s[from..])
  }

  function WordLen(s: string): (n: nat)
    ensures n <= |s| && (forall i :: 0 <= i < n ==> !IsSpace(s[i])) && (n < |s| ==> IsSpace(s[n]))
  {
    if s == "" || IsSpace(s[0]) then 0 else 1 + WordLen(s[1..])
  }

  function Replaced(line: string, image: string): string {
    line[..SpaceLen(line)] + ("image: " + image)
  }

  lemma {:induction false} StripEndStarts(s: string)
    ensures StripEnd(s) <= s
    ensures s != "" && !IsSpace(s[0]) ==> StripEnd(s) != "" && StripEnd(s)[0] == s[0]
    decreases |s|
  {
    if s != "" && IsSpace(s[|s| - 1]) {
      StripEndStarts(s[..|s| - 1]);
    }
  }

  /** The stripped line begins where the indent ends. */
  lemma StripStarts(line: string)
    requires SpaceLen(line) < |line|
    ensures Strip(line) != "" && Strip(line)[0] == line[SpaceLen(line)]
  {
    StripEndStarts(line[SpaceLen(line)..]);
  }

  lemma NameLenIs(s: string, n: nat)
    requires n < |s| && (forall i :: 0 <= i < n ==> IsNameChar(s[i])) && !IsNameChar(s[n])
    ensures NameLen(s) == n
  {
  }

  lemma SpaceLenIs(s: string, n: nat)
    requires n <= |s| && (forall i :: 0 <= i < n ==> IsSpace(s[i])) && (n < |s| ==> !IsSpace(s[n]))
    ensures SpaceLen(s) == n
  {
  }

  lemma BlankLenIs(s: string, t: string, n: nat)
    requires n < |s| && n < |t| && s[n] != ' ' && t[n] != ' ' && forall i :: 0 <= i < n ==> s[i] == t[i]
    ensures BlankLen(s) == BlankLen(t)
  {
  }

  lemma ImageName(rest: string)
    requires "image:" <= rest
    ensures NameLen(rest) == 5 && rest[..5] == "image" && rest[5] == ':' && rest[0] == 'i'
  {
    assert rest[0] == 'i' && rest[1] == 'm' && rest[2] == 'a' && rest[3] == 'g' && rest[4] == 'e' && rest[5] == ':';
    NameLenIs(rest, 5);
  }

  lemma SpaceThen(image: string)
    requires NoSpace(image)
    ensures Trails(" " + image) <==> image == "" || image[0] == '#'
    ensures OneWord(" " + image) <==> image != ""
  {
    var s := " " + image;
    assert s[1..] == image;
    assert image != "" ==> s[1] == image[0];
    SpaceLenIs(s, 1);
    if image != "" {
      assert WordLen(image) == |image|;
      assert s[1 + |image|..] == "";
    }
  }

  // ----- the patterns these amount to

  predicate AllSpace(s: string) {
    forall i :: 0 <= i < |s| ==> IsSpace(s[i])
  }

  predicate AllName(s: string) {
    forall i :: 0 <= i < |s| ==> IsNameChar(s[i])
  }

  /** `line` is spaces, "image:", spaces, a word and spaces. */
  ghost predicate ImageForm(line: string, pad: string, gap: string, word: string, tail: string) {
    && line == pad + ("image:" + (gap + (word + tail)))
    && AllSpace(pad) && AllSpace(gap) && AllSpace(tail) && word != "" && NoSpace(word)
  }

  lemma AfterSpace(pad: string, rest: string)
    requires AllSpace(pad) && (rest != "" ==> !IsSpace(rest[0]))
    ensures SpaceLen(pad + rest) == |pad| && (pad + rest)[|pad|..] == rest && (pad + rest)[..|pad|] == pad
  {
    var s := pad + rest;
    assert forall i :: 0 <= i < |pad| ==> s[i] == pad[i];
    assert rest != "" ==> s[|pad|] == rest[0];
    SpaceLenIs(s, |pad|);
  }

  lemma WordLenIs(s: string, n: nat)
    requires n <= |s| && (forall i :: 0 <= i < n ==> !IsSpace(s[i])) && (n < |s| ==> IsSpace(s[n]))
    ensures WordLen(s) == n
  {
  }

  lemma WordThenSpace(word: string, tail: string)
    requires word != "" && NoSpace(word) && AllSpace(tail)
    ensures WordLen(word + tail) == |word| && (word + tail)[|word|..] == tail && SpaceLen(tail) == |tail|
    ensures !IsSpace((word + tail)[0])
  {
    var s := word + tail;
    assert forall i :: 0 <= i < |word| ==> s[i] == word[i];
    assert tail != "" ==> s[|word|] == tail[0];
    WordLenIs(s, |word|);
    SpaceLenIs(tail, |tail|);
  }

  lemma OneWordForm(gap: string, word: string, tail: string)
    requires AllSpace(gap) && AllSpace(tail) && word != "" && NoSpace(word)
    ensures OneWord(gap + (word + tail))
  {
    WordThenSpace(word, tail);
    AfterSpace(gap, word + tail);
    var s := gap + (word + tail);
    assert s[|gap| + |word|..] == (word + tail)[|word|..];
  }

  lemma ImageFormIs(line: string, pad: string, gap: string, word: string, tail: string)
    requires ImageForm(line, pad, gap, word, tail)
    ensures IsImage(line)
  {
    var rest := "image:" + (gap + (word + tail));
    assert rest[0] == 'i';
    AfterSpace(pad, rest);
    OneWordForm(gap, word, tail);
    assert rest[6..] == gap + (word + tail);
  }

  lemma Cut(s: string, n: nat)
    requires n <= |s|
    ensures s == s[..n] + s[n..]
  {
  }

  lemma SpacesBefore(s: string)
    ensures AllSpace(s[..SpaceLen(s)]) && (SpaceLen(s) == |s| ==> AllSpace(s))
  {
  }

  lemma WordHasForm(s: string) returns (word: string, tail: string)
    requires s != "" && !IsSpace(s[0]) && SpaceLen(s[WordLen(s)..]) == |s| - WordLen(s)
    ensures s == word + tail && word != "" && NoSpace(word) && AllSpace(tail)
  {
    var n := WordLen(s);
    word, tail := s[..n], s[n..];
    Cut(s, n);
    SpacesBefore(tail);
  }

  lemma OneWordHasForm(s: string) returns (gap: string, word: string, tail: string)
    requires OneWord(s)
    ensures s == gap + (word + tail) && AllSpace(gap) && AllSpace(tail) && word != "" && NoSpace(word)
  {
    var n := SpaceLen(s);
    var t := s[n..];
    gap := s[..n];
    DropDrop(s, n, WordLen(t));
    word, tail := WordHasForm(t);
    Cut(s, n);
    SpacesBefore(s);
  }

  lemma DropDrop(s: string, n: nat, k: nat)
    requires n + k <= |s|
    ensures s[n..][k..] == s[n + k..]
  {
  }

  lemma AfterPrefix(p: string, s: string)
    requires p <= s
    ensures s == p + s[|p|..]
  {
  }

  lemma ImageHasForm(line: string)
    requires IsImage(line)
    ensures exists pad, gap, word, tail :: ImageForm(line, pad, gap, word, tail)
  {
    var n := SpaceLen(line);
    var rest := line[n..];
    var gap, word, tail := OneWordHasForm(rest[6..]);
    AfterPrefix("image:", rest);
    Cut(line, n);
    SpacesBefore(line);
    assert ImageForm(line, line[..n], gap, word, tail);
  }

  /** A line gives an image exactly if it has that form. */
  lemma ImageMeans(line: string)
    ensures IsImage(line) <==> exists pad, gap, word, tail :: ImageForm(line, pad, gap, word, tail)
  {
    if IsImage(line) {
      ImageHasForm(line);
    }
    if pad, gap, word, tail :| ImageForm(line, pad, gap, word, tail) {
      ImageFormIs(line, pad, gap, word, tail);
    }
  }

  /** `line` is spaces, a name and a colon, spaces, and perhaps a comment. */
  ghost predicate NameForm(line: string, pad: string, name: string, gap: string, comment: string) {
    && line == pad + (name + (":" + (gap + comment)))
    && AllSpace(pad) && name != "" && AllName(name) && AllSpace(gap) && (comment != "" ==> comment[0] == '#')
  }

  lemma NameFormIs(line: string, pad: string, name: string, gap: string, comment: string)
    requires NameForm(line, pad, name, gap, comment)
    ensures ServiceName(line) == Some(name)
  {
    NameThen(name, gap + comment);
    AfterSpace(pad, name + (":" + (gap + comment)));
    TrailsForm(gap, comment);
  }

  lemma NameThen(name: string, s: string)
    requires name != "" && AllName(name)
    ensures var rest := name + (":" + s);
      && NameLen(rest) == |name| < |rest| && rest[|name|] == ':' && rest[..|name|] == name && rest[|name| + 1..] == s
      && !IsSpace(rest[0])
  {
    var rest := name + (":" + s);
    assert forall i :: 0 <= i < |name| ==> rest[i] == name[i];
    assert rest[|name|] == ':' && IsNameChar(rest[0]);
    NameLenIs(rest, |name|);
  }

  lemma TrailsForm(gap: string, comment: string)
    requires AllSpace(gap) && (comment != "" ==> comment[0] == '#')
    ensures Trails(gap + comment)
  {
    AfterSpace(gap, comment);
    assert comment != "" ==> (gap + comment)[|gap|] == comment[0];
  }

  lemma TrailsHaveForm(s: string) returns (gap: string, comment: string)
    requires Trails(s)
    ensures s == gap + comment && AllSpace(gap) && (comment != "" ==> comment[0] == '#')
  {
    gap, comment := s[..SpaceLen(s)], s[SpaceLen(s)..];
    Cut(s, SpaceLen(s));
    SpacesBefore(s);
  }

  lemma ColonCut(s: string, n: nat)
    requires n < |s| && s[n] == ':'
    ensures s == s[..n] + (":" + s[n + 1..])
  {
  }

  lemma NameHasForm(line: string)
    requires ServiceName(line).Some?
    ensures exists pad, gap, comment :: NameForm(line, pad, ServiceName(line).value, gap, comment)
  {
    var n := SpaceLen(line);
    var rest := line[n..];
    var m := NameLen(rest);
    var gap, comment := TrailsHaveForm(rest[m + 1..]);
    Cut(line, n);
    ColonCut(rest, m);
    SpacesBefore(line);
    assert NameForm(line, line[..n], rest[..m], gap, comment);
  }

  /** A line names a service exactly if it has that form. */
  lemma NameMeans(line: string, name: string)
    ensures ServiceName(line) == Some(name) <==> exists pad, gap, comment :: NameForm(line, pad, name, gap, comment)
  {
    if ServiceName(line) == Some(name) {
      NameHasForm(line);
    }
    if pad, gap, comment :| NameForm(line, pad, name, gap, comment) {
      NameFormIs(line, pad, name, gap, comment);
    }
  }

  // ----- the scanner

  /** All the scanner takes from a line: whether it opens the services, whether it is
      blank or a comment, its indents, the service it names, and whether it gives an image. */
  datatype Look = Look(services: bool, comment: bool, blanks: nat, indent: nat, name: Option<string>, image: bool)

  function LookAt(line: string): Look {
    var stripped := Strip(line);
    Look(stripped == "services:", stripped == "" || stripped[0] == '#', BlankLen(line), SpaceLen(line),
         ServiceName(line), IsImage(line))
  }

  function Looks(lines: seq<string>): (looks: seq<Look>)
    ensures |looks| == |lines|
  {
    Map(LookAt, lines)
  }

  datatype Scan = Scan(inServices: bool, servicesIndent: nat, serviceIndent: Option<nat>, current: Option<string>)

  const START := Scan(false, 0, None, None)

  function Next(s: Scan, l: Look): Scan {
    if !s.inServices then
      if l.services then s.(inServices := true, servicesIndent := l.blanks) else s
    else if !l.comment && l.blanks <= s.servicesIndent then
      s.(inServices := false, current := None)
    else if l.name.None? || l.indent <= s.servicesIndent then s
    else
      var first := if s.serviceIndent.None? then s.(serviceIndent := Some(l.indent)) else s;
      if first.serviceIndent == Some(l.indent) then first.(current := l.name) else first
  }

  function ScanOf(looks: seq<Look>): (s: Scan)
    ensures s.current.Some? ==> s.serviceIndent.Some?
  {
    if looks == [] then START else Next(ScanOf(looks[..|looks| - 1]), looks[|looks| - 1])
  }

  predicate Hits(s: Scan, l: Look, service: string) {
    s.inServices && s.current == Some(service) && l.image
  }

  /** Which lines give the service's image. */
  function Flags(looks: seq<Look>, service: string): (flags: seq<bool>)
    ensures |flags| == |looks|
  {
    if looks == [] then []
    else Flags(looks[..|looks| - 1], service) + [Hits(ScanOf(looks), looks[|looks| - 1], service)]
  }

  function Count(flags: seq<bool>): nat {
    if flags == [] then 0 else Count(flags[..|flags| - 1]) + if flags[|flags| - 1] then 1 else 0
  }

  function Put(lines: seq<string>, flags: seq<bool>, image: string): (out: seq<string>)
    requires |lines| == |flags|
    ensures |out| == |lines|
  {
    if lines == [] then []
    else
      var n := |lines| - 1;
      Put(lines[..n], flags[..n], image) + [if flags[n] then Replaced(lines[n], image) else lines[n]]
  }

  function FlagsOf(lines: seq<string>, service: string): (flags: seq<bool>)
    ensures |flags| == |lines|
  {
    Flags(Looks(lines), service)
  }

  function Output(lines: seq<string>, service: string, image: string): (out: seq<string>)
    ensures |out| == |lines|
  {
    Put(lines, FlagsOf(lines, service), image)
  }

  function Rewritten(text: string, service: string, image: string): Rewriting {
    var lines := SplitLines(text);
    var found := Count(FlagsOf(lines, service));
    if found == 1 then Rendered(Render(Output(lines, service, image), EndsInNewline(text))) else Miscounted(found)
  }

  /** What one more line does to the scan, the count and the output. */
  lemma OneMore(lines: seq<string>, service: string, image: string, i: nat)
    requires i < |lines|
    ensures var s, line := Next(ScanOf(Looks(lines[..i])), LookAt(lines[i])), lines[i];
      var hit := Hits(s, LookAt(line), service);
      && ScanOf(Looks(lines[..i + 1])) == s
      && Count(FlagsOf(lines[..i + 1], service)) == Count(FlagsOf(lines[..i], service)) + (if hit then 1 else 0)
      && Output(lines[..i + 1], service, image)
         == Output(lines[..i], service, image) + [if hit then Replaced(line, image) else line]
  {
    var more := lines[..i + 1];
    assert more[..i] == lines[..i];
    var looks := Looks(more);
    assert looks[..i] == Looks(lines[..i]);
    assert FlagsOf(more, service)[..i] == FlagsOf(lines[..i], service);
  }

  /** The scanner moves over a line that does not open the services. */
  method Track(s: Scan, line: string) returns (s': Scan)
    requires !(!s.inServices && Strip(line) == "services:")
    ensures s' == Next(s, LookAt(line))
  {
    var Scan(inServices, servicesIndent, serviceIndent, current) := s;
    var stripped := Strip(line);
    var indent := BlankLen(line);
    if inServices {
      if stripped != "" && stripped[0] != '#' && indent <= servicesIndent {
        inServices, current := false, None;
      } else {
        var name := ServiceName(line);
        var nameIndent := SpaceLen(line);
        if name.Some? && nameIndent > servicesIndent {
          if serviceIndent.None? {
            serviceIndent := Some(nameIndent);
          }
          if serviceIndent == Some(nameIndent) {
            current := name;
          }
        }
      }
    }
    return Scan(inServices, servicesIndent, serviceIndent, current);
  }

  lemma OpensServices(s: Scan, line: string)
    requires !s.inServices && Strip(line) == "services:"
    ensures Next(s, LookAt(line)) == s.(inServices := true, servicesIndent := BlankLen(line)) && !IsImage(line)
  {
    ServicesIsNoImage(line);
  }

  method ReplaceServiceImage(text: string, service: string, image: string) returns (r: Rewriting)
    ensures r == Rewritten(text, service, image)
  {
    var lines := SplitLines(text);
    var s := START;
    var replacements := 0;
    var output := [];
    for i := 0 to |lines|
      invariant s == ScanOf(Looks(lines[..i]))
      invariant replacements == Count(FlagsOf(lines[..i], service))
      invariant output == Output(lines[..i], service, image)
    {
      var line := lines[i];
      OneMore(lines, service, image, i);
      if !s.inServices && Strip(line) == "services:" {
        OpensServices(s, line);
        s := s.(inServices := true, servicesIndent := BlankLen(line));
        output := output + [line];
        continue;
      }
      s := Track(s, line);
      var replacement := line;
      if s.inServices && s.current == Some(service) && IsImage(line) {
        replacement := Replaced(line, image);
        replacements := replacements + 1;
      }
      output := output + [replacement];
    }
    assert lines[..|lines|] == lines;
    if replacements != 1 {
      return Miscounted(replacements);
    }
    return Rendered(Render(output, EndsInNewline(text)));
  }

  lemma {:induction false} FlagAt(looks: seq<Look>, service: string, i: nat)
    requires i < |looks|
    ensures Flags(looks, service)[i] == Hits(ScanOf(looks[..i + 1]), looks[i], service)
    ensures Flags(looks[..i], service) == Flags(looks, service)[..i]
  {
    var n := |looks| - 1;
    if i < n {
      FlagAt(looks[..n], service, i);
      assert looks[..n][..i + 1] == looks[..i + 1] && looks[..n][..i] == looks[..i];
    } else {
      assert looks[..i + 1] == looks;
    }
  }

  lemma ServicesIsNoImage(line: string)
    requires Strip(line) == "services:"
    ensures !IsImage(line)
  {
    if SpaceLen(line) < |line| {
      StripStarts(line);
      assert line[SpaceLen(line)] == 's';
    }
  }

  // ----- one line changes

  lemma {:induction false} CountOne(flags: seq<bool>) returns (k: nat)
    requires Count(flags) == 1
    ensures k < |flags| && flags[k] && forall i :: 0 <= i < |flags| && i != k ==> !flags[i]
  {
    var n := |flags| - 1;
    if flags[n] {
      k := n;
      CountNone(flags[..n]);
      assert forall i :: 0 <= i < n ==> flags[i] == flags[..n][i];
    } else {
      k := CountOne(flags[..n]);
      assert forall i :: 0 <= i < n ==> flags[i] == flags[..n][i];
    }
  }

  lemma {:induction false} CountNone(flags: seq<bool>)
    ensures Count(flags) == 0 <==> forall i :: 0 <= i < |flags| ==> !flags[i]
  {
    if flags != [] {
      var n := |flags| - 1;
      CountNone(flags[..n]);
      assert forall i :: 0 <= i < n ==> flags[i] == flags[..n][i];
    }
  }

  predicate NewlinesOnly(text: string) {
    forall i :: 0 <= i < |text| && IsBreak(text[i]) ==> text[i] == '\n'
  }

  lemma RenderMore(line: string, more: seq<string>, newline: bool)
    requires more != []
    ensures Render([line] + more, newline) == line + "\n" + Render(more, newline)
  {
    var lines := [line] + more;
    assert lines[1..] == more;
    assert lines[..|lines| - 1][1..] == more[..|more| - 1];
    assert lines[|lines| - 1] == more[|more| - 1];
    assert Terminated(lines[..|lines| - 1]) == line + "\n" + Terminated(more[..|more| - 1]);
  }

  lemma CutAt(text: string, n: nat)
    requires n < |text| && text[n] == '\n'
    ensures text == text[..n] + "\n" + text[n + 1..]
  {
  }

  lemma RenderOne(line: string)
    ensures Render([line], true) == line + "\n"
  {
    assert Terminated([line]) == line + "\n" + Terminated([line][1..]);
    assert line + "\n" + "" == line + "\n";
  }

  lemma RenderLast(text: string)
    requires text != "" && LineEnd(text) == |text|
    ensures SplitLines(text) == [text] && Render([text], EndsInNewline(text)) == text
  {
    var n := |text|;
    assert !IsBreak(text[n - 1]);
    assert text[..n] == text && [text][..0] == [] && Terminated([]) + text == text;
  }

  /** A newline-separated text is its lines. */
  lemma {:induction false} RenderSplit(text: string)
    requires NewlinesOnly(text)
    ensures Render(SplitLines(text), EndsInNewline(text)) == text
    decreases |text|
  {
    var n := LineEnd(text);
    if n < |text| {
      var line, rest := text[..n], text[n + 1..];
      CutAt(text, n);
      SplitFirst(line, rest);
      RenderSplit(rest);
      if rest == "" {
        RenderOne(line);
        assert [line] + [] == [line];
        assert text == line + "\n";
      } else {
        assert text[|text| - 1] == rest[|rest| - 1];
        RenderMore(line, SplitLines(rest), EndsInNewline(rest));
      }
    } else if text != "" {
      RenderLast(text);
    }
  }

  lemma {:induction false} PutAt(lines: seq<string>, flags: seq<bool>, image: string, i: nat)
    requires i < |lines| == |flags|
    ensures Put(lines, flags, image)[i] == if flags[i] then Replaced(lines[i], image) else lines[i]
  {
    var n := |lines| - 1;
    if i < n {
      PutAt(lines[..n], flags[..n], image, i);
    }
  }

  lemma PutOne(lines: seq<string>, flags: seq<bool>, image: string, k: nat)
    requires k < |lines| == |flags| && flags[k] && forall i :: 0 <= i < |flags| && i != k ==> !flags[i]
    ensures Put(lines, flags, image) == lines[k := Replaced(lines[k], image)]
  {
    forall i | 0 <= i < |lines|
      ensures Put(lines, flags, image)[i] == lines[k := Replaced(lines[k], image)][i]
    {
      PutAt(lines, flags, image, i);
    }
  }

  lemma OneChange(lines: seq<string>, service: string, image: string) returns (k: nat)
    requires Count(FlagsOf(lines, service)) == 1
    ensures k < |lines| && LookAt(lines[k]).image && ScanOf(Looks(lines)[..k + 1]).current == Some(service)
    ensures Output(lines, service, image) == lines[k := Replaced(lines[k], image)]
  {
    k := CountOne(FlagsOf(lines, service));
    FlagAt(Looks(lines), service, k);
    MapAt(LookAt, lines, k);
    PutOne(lines, FlagsOf(lines, service), image, k);
  }

  /** Success changes one line of a newline-separated text, the only line that gives the
      service's image: it keeps its indent and gives the new image. All else stays. */
  lemma OneLineChanges(text: string, service: string, image: string) returns (k: nat)
    requires NewlinesOnly(text) && Rewritten(text, service, image).Rendered?
    ensures var lines := SplitLines(text);
      && Render(lines, EndsInNewline(text)) == text
      && k < |lines| && IsImage(lines[k]) && ScanOf(Looks(lines)[..k + 1]).current == Some(service)
      && Rewritten(text, service, image).text
         == Render(lines[k := lines[k][..SpaceLen(lines[k])] + ("image: " + image)], EndsInNewline(text))
  {
    RenderSplit(text);
    k := OneChange(SplitLines(text), service, image);
  }

  // ----- which line

  /** A services block opened at line `i` and still going at the end. */
  ghost predicate InBlock(looks: seq<Look>, i: nat) {
    && i < |looks| && looks[i].services
    && forall m :: i < m < |looks| ==> looks[m].comment || looks[m].blanks > looks[i].blanks
  }

  /** The last service named in that block, at the indent of a service, is at line `j`. */
  ghost predicate Under(looks: seq<Look>, i: nat, j: nat, service: string) {
    && InBlock(looks, i) && i < j < |looks| && looks[j].name == Some(service) && looks[j].indent > looks[i].blanks
    && forall m :: j < m < |looks| && looks[m].name.Some? ==> looks[m].indent != looks[j].indent
  }

  lemma {:induction false} BlockMeans(looks: seq<Look>) returns (i: nat)
    requires ScanOf(looks).inServices
    ensures InBlock(looks, i) && ScanOf(looks).servicesIndent == looks[i].blanks
  {
    var n := |looks| - 1;
    if ScanOf(looks[..n]).inServices {
      i := BlockMeans(looks[..n]);
      assert forall m :: 0 <= m < n ==> looks[..n][m] == looks[m];
    } else {
      i := n;
    }
  }

  lemma {:induction false} CurrentMeans(looks: seq<Look>, service: string) returns (i: nat, j: nat)
    requires ScanOf(looks).current == Some(service)
    ensures ScanOf(looks).inServices && Under(looks, i, j, service)
    ensures ScanOf(looks).servicesIndent == looks[i].blanks && ScanOf(looks).serviceIndent == Some(looks[j].indent)
  {
    var n := |looks| - 1;
    var before := ScanOf(looks[..n]);
    assert forall m :: 0 <= m < n ==> looks[..n][m] == looks[m];
    if before.current.None? {
      i := BlockMeans(looks[..n]);
      j := n;
    } else {
      i, j := CurrentMeans(looks[..n], before.current.value);
      if before.inServices && looks[n].name.Some? && looks[n].indent == looks[j].indent {
        j := n;
      }
    }
  }

  lemma FlagMeans(looks: seq<Look>, service: string, k: nat) returns (i: nat, j: nat)
    requires k < |looks| && Flags(looks, service)[k] && looks[k].name != Some(service)
    ensures i < j < k && looks[k].image && Under(looks[..k + 1], i, j, service)
  {
    FlagAt(looks, service, k);
    i, j := CurrentMeans(looks[..k + 1], service);
  }

  /** A line that gives the service's image stands in a services block, under the line that
      names the service, with no other service named in between. */
  lemma HitMeans(lines: seq<string>, service: string, k: nat) returns (i: nat, j: nat)
    requires k < |lines| && FlagsOf(lines, service)[k] && service != "image"
    ensures i < j < k && LookAt(lines[i]).services && LookAt(lines[j]).name == Some(service) && IsImage(lines[k])
    ensures Under(Looks(lines)[..k + 1], i, j, service)
  {
    FlaggedIsImage(lines, service);
    assert Sane(Looks(lines)[k]);
    FlagAt(Looks(lines), service, k);
    i, j := FlagMeans(Looks(lines), service, k);
    MapAt(LookAt, lines, i);
    MapAt(LookAt, lines, j);
  }

  lemma {:induction false} NeverInServices(looks: seq<Look>, service: string)
    requires forall i :: 0 <= i < |looks| ==> !looks[i].services
    ensures !ScanOf(looks).inServices && Count(Flags(looks, service)) == 0
  {
    if looks != [] {
      var n := |looks| - 1;
      assert forall i :: 0 <= i < n ==> looks[..n][i] == looks[i];
      NeverInServices(looks[..n], service);
      assert Flags(looks, service)[..n] == Flags(looks[..n], service);
    }
  }

  /** A text without a line that opens services gives no image. */
  lemma NoServices(text: string, service: string, image: string)
    requires forall i :: 0 <= i < |SplitLines(text)| ==> !LookAt(SplitLines(text)[i]).services
    ensures Rewritten(text, service, image) == Miscounted(0)
  {
    var lines := SplitLines(text);
    forall i | 0 <= i < |lines|
      ensures !Looks(lines)[i].services
    {
      MapAt(LookAt, lines, i);
    }
    NeverInServices(Looks(lines), service);
  }

  // ----- rewriting again

  /** The look of an image line. */
  predicate Sane(l: Look) {
    l.image ==> !l.services && !l.comment && l.blanks <= l.indent && l.name in {None, Some("image")}
  }

  lemma ImageLine(line: string)
    requires IsImage(line)
    ensures SpaceLen(line) < |line| && line[SpaceLen(line)] == 'i'
    ensures Sane(LookAt(line))
  {
    ImageName(line[SpaceLen(line)..]);
    StripStarts(line);
  }

  /** The look of the line that replaces an image line: unless an image follows that is no
      comment, it reads as a service called "image". */
  function Relook(l: Look, image: string): Look {
    l.(name := if image == "" || image[0] == '#' then Some("image") else None, image := image != "")
  }

  lemma SameIndents(s: string, t: string, n: nat)
    requires n == SpaceLen(s) < |s| && n < |t| && s[..n] == t[..n] && t[n] == 'i'
    ensures SpaceLen(t) == n && BlankLen(t) == BlankLen(s)
  {
    assert forall i :: 0 <= i < n ==> s[i] == s[..n][i] && t[i] == t[..n][i];
    SpaceLenIs(t, n);
    BlankLenIs(s, t, n);
  }

  lemma Spliced(line: string, n: nat, rest: string)
    requires n <= |line|
    ensures (line[..n] + rest)[..n] == line[..n] && (line[..n] + rest)[n..] == rest
  {
  }

  lemma ReplacedIndents(line: string, image: string)
    requires SpaceLen(line) < |line|
    ensures var r := Replaced(line, image);
      && SpaceLen(r) == SpaceLen(line) && BlankLen(r) == BlankLen(line)
      && r[SpaceLen(line)..] == "image: " + image && r[..SpaceLen(line)] == line[..SpaceLen(line)]
  {
    var n, rest := SpaceLen(line), "image: " + image;
    Spliced(line, n, rest);
    assert rest[0] == 'i';
    SameIndents(line, line[..n] + rest, n);
  }

  lemma ImageWord(rest: string, image: string)
    requires rest == "image: " + image
    ensures "image:" <= rest && rest[6..] == " " + image && |rest| == 7 + |image|
    ensures NameLen(rest) == 5 && rest[..5] == "image" && rest[5] == ':' && rest[0] == 'i'
  {
    assert rest[6..] == " " + image;
    ImageName(rest);
  }

  lemma ImageRest(r: string, image: string)
    requires NoSpace(image) && r[SpaceLen(r)..] == "image: " + image
    ensures ServiceName(r) == if image == "" || image[0] == '#' then Some("image") else None
    ensures IsImage(r) <==> image != ""
    ensures SpaceLen(r) < |r| && r[SpaceLen(r)] == 'i'
  {
    ImageWord(r[SpaceLen(r)..], image);
    SpaceThen(image);
  }

  lemma ReplacedLine(line: string, image: string)
    requires IsImage(line) && NoSpace(image)
    ensures LookAt(Replaced(line, image)) == Relook(LookAt(line), image)
    ensures Replaced(Replaced(line, image), image) == Replaced(line, image)
  {
    ImageLine(line);
    ReplacedIndents(line, image);
    var r := Replaced(line, image);
    ImageRest(r, image);
    StripStarts(r);
  }

  /** The same place of a scan, perhaps taken for a service called "image". */
  predicate Beside(s: Scan, t: Scan) {
    t == s.(current := t.current) && (t.current == s.current || t.current == Some("image"))
  }

  /** The new image would be read back here. */
  predicate Fits(s: Scan, l: Look, image: string) {
    image != "" && (image[0] == '#' ==> s.serviceIndent != Some(l.indent))
  }

  lemma HitStep(s: Scan, t: Scan, l: Look, service: string, image: string)
    requires Sane(l) && service != "image" && Beside(s, t) && (s.current.Some? ==> s.serviceIndent.Some?)
    requires Hits(Next(s, l), l, service)
    ensures var t' := Next(t, Relook(l, image));
      && Next(s, l) == s && Beside(s, t')
      && (Hits(t', Relook(l, image), service) <==> t == s && Fits(s, l, image))
      && (t == s && Fits(s, l, image) ==> t' == s)
  {
  }

  lemma MissStep(s: Scan, t: Scan, l: Look, service: string)
    requires service != "image" && Beside(s, t) && !Hits(Next(s, l), l, service)
    ensures Beside(Next(s, l), Next(t, l)) && !Hits(Next(t, l), l, service)
  {
  }

  function Relooked(looks: seq<Look>, flags: seq<bool>, image: string): (r: seq<Look>)
    requires |looks| == |flags|
    ensures |r| == |looks|
  {
    if looks == [] then []
    else
      var n := |looks| - 1;
      Relooked(looks[..n], flags[..n], image) + [if flags[n] then Relook(looks[n], image) else looks[n]]
  }

  /** The new image would be read back wherever a line gives the service's image. */
  predicate Stays(looks: seq<Look>, service: string, image: string) {
    || looks == []
    || (var n, s := |looks| - 1, ScanOf(looks);
        Stays(looks[..n], service, image) && (Hits(s, looks[n], service) ==> Fits(s, looks[n], image)))
  }

  lemma {:induction false} ScanAgain(looks: seq<Look>, service: string, image: string)
    requires service != "image" && forall i :: 0 <= i < |looks| ==> Sane(looks[i])
    ensures var again := Relooked(looks, Flags(looks, service), image);
      && Beside(ScanOf(looks), ScanOf(again))
      && Count(Flags(again, service)) <= Count(Flags(looks, service))
      && (if Stays(looks, service, image)
          then ScanOf(again) == ScanOf(looks) && Flags(again, service) == Flags(looks, service)
          else Count(Flags(again, service)) < Count(Flags(looks, service)))
  {
    if looks != [] {
      var n := |looks| - 1;
      var flags := Flags(looks, service);
      assert flags[..n] == Flags(looks[..n], service);
      var again := Relooked(looks, flags, image);
      var before := Relooked(looks[..n], flags[..n], image);
      assert again[..n] == before;
      ScanAgain(looks[..n], service, image);
      assert Flags(again, service)[..n] == Flags(before, service);
      if flags[n] {
        HitStep(ScanOf(looks[..n]), ScanOf(before), looks[n], service, image);
      } else {
        MissStep(ScanOf(looks[..n]), ScanOf(before), looks[n], service);
      }
    }
  }

  lemma {:induction false} LooksOfPut(lines: seq<string>, flags: seq<bool>, image: string)
    requires |lines| == |flags| && NoSpace(image)
    requires forall i :: 0 <= i < |lines| && flags[i] ==> IsImage(lines[i])
    ensures Looks(Put(lines, flags, image)) == Relooked(Looks(lines), flags, image)
    ensures Put(Put(lines, flags, image), flags, image) == Put(lines, flags, image)
  {
    if lines != [] {
      var n := |lines| - 1;
      forall i | 0 <= i < n && flags[..n][i]
        ensures IsImage(lines[..n][i])
      {
        assert flags[i] && lines[..n][i] == lines[i];
      }
      LooksOfPut(lines[..n], flags[..n], image);
      assert Put(lines, flags, image)[..n] == Put(lines[..n], flags[..n], image);
      assert Looks(lines)[..n] == Looks(lines[..n]);
      if flags[n] {
        ReplacedLine(lines[n], image);
      }
    }
  }

  lemma FlaggedIsImage(lines: seq<string>, service: string)
    ensures forall i :: 0 <= i < |lines| && FlagsOf(lines, service)[i] ==> IsImage(lines[i])
    ensures forall i :: 0 <= i < |lines| ==> Sane(Looks(lines)[i])
  {
    forall i | 0 <= i < |lines|
      ensures FlagsOf(lines, service)[i] ==> IsImage(lines[i])
      ensures Sane(Looks(lines)[i])
    {
      FlagAt(Looks(lines), service, i);
      MapAt(LookAt, lines, i);
      if IsImage(lines[i]) {
        ImageLine(lines[i]);
      }
    }
  }

  /** Rewriting the rewritten lines changes nothing if the image stays, and finds fewer
      images if it does not. */
  lemma LinesAgain(lines: seq<string>, service: string, image: string)
    requires NoSpace(image) && service != "image"
    ensures var out := Output(lines, service, image);
      && (Stays(Looks(lines), service, image) ==>
            FlagsOf(out, service) == FlagsOf(lines, service) && Output(out, service, image) == out)
      && (!Stays(Looks(lines), service, image) ==>
            Count(FlagsOf(out, service)) < Count(FlagsOf(lines, service)))
  {
    var flags := FlagsOf(lines, service);
    FlaggedIsImage(lines, service);
    ScanAgain(Looks(lines), service, image);
    LooksOfPut(lines, flags, image);
  }

  lemma ReplacedOneLine(line: string, image: string)
    requires NoSpace(image) && OneLine(line)
    ensures OneLine(Replaced(line, image)) && Replaced(line, image) != ""
  {
    var n, rest := SpaceLen(line), "image: " + image;
    Spliced(line, n, rest);
    assert forall i :: 0 <= i < |image| ==> rest[i + 7] == image[i];
    assert OneLine(rest);
  }

  lemma OutputLines(lines: seq<string>, service: string, image: string)
    requires NoSpace(image) && forall i :: 0 <= i < |lines| ==> OneLine(lines[i])
    ensures forall i :: 0 <= i < |lines| ==> OneLine(Output(lines, service, image)[i])
  {
    var flags := FlagsOf(lines, service);
    forall i | 0 <= i < |lines|
      ensures OneLine(Output(lines, service, image)[i])
    {
      PutAt(lines, flags, image, i);
      ReplacedOneLine(lines[i], image);
    }
  }

  /** A blank last line gives no image: with and without it the rewriting is the same. */
  lemma BlankLast(lines: seq<string>, service: string, image: string)
    requires lines != [] && lines[|lines| - 1] == ""
    ensures var n := |lines| - 1;
      && Count(FlagsOf(lines[..n], service)) == Count(FlagsOf(lines, service))
      && Output(lines, service, image) == Output(lines[..n], service, image) + [""]
  {
    var n := |lines| - 1;
    OneMore(lines, service, image, n);
    assert lines[..n + 1] == lines;
    assert !IsImage("");
  }

  lemma OutputShown(lines: seq<string>, service: string, image: string) returns (k: nat)
    requires Count(FlagsOf(lines, service)) == 1
    ensures k < |lines| && Output(lines, service, image)[k] != ""
  {
    k := CountOne(FlagsOf(lines, service));
    PutAt(lines, FlagsOf(lines, service), image, k);
    assert |Replaced(lines[k], image)| >= |"image: " + image| > 0;
  }

  /** Rewriting a rendered text is rewriting its lines. */
  lemma RenderedAgain(out: seq<string>, newline: bool, service: string, image: string)
    requires out != [] && out != [""] && forall i :: 0 <= i < |out| ==> OneLine(out[i])
    requires Count(FlagsOf(out, service)) == 1 ==> Output(out, service, image) == out
    ensures var text, found := Render(out, newline), Count(FlagsOf(out, service));
      Rewritten(text, service, image) == if found == 1 then Rendered(text) else Miscounted(found)
  {
    SplitRendered(out, newline);
    if !newline && out[|out| - 1] == "" {
      BlankLast(out, service, image);
    }
  }

  lemma RenderStays(lines: seq<string>, newline: bool, service: string, image: string)
    requires NoSpace(image) && service != "image" && Count(FlagsOf(lines, service)) == 1
    requires forall i :: 0 <= i < |lines| ==> OneLine(lines[i])
    requires Stays(Looks(lines), service, image)
    ensures var once := Render(Output(lines, service, image), newline);
      Rewritten(once, service, image) == Rendered(once)
  {
    LinesAgain(lines, service, image);
    OutputLines(lines, service, image);
    var k := OutputShown(lines, service, image);
    RenderedAgain(Output(lines, service, image), newline, service, image);
  }

  lemma RenderLost(lines: seq<string>, newline: bool, service: string, image: string)
    requires NoSpace(image) && service != "image" && Count(FlagsOf(lines, service)) == 1
    requires forall i :: 0 <= i < |lines| ==> OneLine(lines[i])
    requires !Stays(Looks(lines), service, image)
    ensures Rewritten(Render(Output(lines, service, image), newline), service, image) == Miscounted(0)
  {
    LinesAgain(lines, service, image);
    OutputLines(lines, service, image);
    var k := OutputShown(lines, service, image);
    RenderedAgain(Output(lines, service, image), newline, service, image);
  }

  /** Rewriting again: the text stays as it is exactly when the new image is read back where
      it was put, and otherwise no image is found. */
  lemma RewriteAgain(text: string, service: string, image: string)
    requires NoSpace(image) && service != "image" && Rewritten(text, service, image).Rendered?
    ensures var once := Rewritten(text, service, image).text;
      Rewritten(once, service, image)
      == if Stays(Looks(SplitLines(text)), service, image) then Rendered(once) else Miscounted(0)
  {
    if Stays(Looks(SplitLines(text)), service, image) {
      RenderStays(SplitLines(text), EndsInNewline(text), service, image);
    } else {
      RenderLost(SplitLines(text), EndsInNewline(text), service, image);
    }
  }

  lemma {:induction false} PlainImageStays(looks: seq<Look>, service: string, image: string)
    requires image != "" && image[0] != '#'
    ensures Stays(looks, service, image)
  {
    if looks != [] {
      PlainImageStays(looks[..|looks| - 1], service, image);
    }
  }

  /** A word that starts no comment. */
  predicate IsPlain(image: string) {
    NoSpace(image) && image != "" && image[0] != '#'
  }

  /** Rewriting to an image that is not empty, has no space and starts no comment is
      idempotent. */
  lemma RewriteIdempotent(text: string, service: string, image: string)
    requires IsPlain(image) && service != "image"
    requires Rewritten(text, service, image).Rendered?
    ensures Rewritten(Rewritten(text, service, image).text, service, image) == Rewritten(text, service, image)
  {
    RewriteAgain(text, service, image);
    PlainImageStays(Looks(SplitLines(text)), service, image);
  }

  predicate Blanks(s: string) {
    forall i :: 0 <= i < |s| ==> s[i] == ' '
  }

  lemma StripNothing(s: string)
    requires s != "" && !IsSpace(s[|s| - 1])
    ensures StripEnd(s) == s
  {
  }

  lemma Indented(pad: string, rest: string)
    requires Blanks(pad) && rest != "" && !IsSpace(rest[0])
    ensures SpaceLen(pad + rest) == |pad| == BlankLen(pad + rest) && (pad + rest)[|pad|..] == rest
  {
    var line := pad + rest;
    assert line[|pad|] == rest[0];
    assert forall i :: 0 <= i < |pad| ==> line[i] == pad[i];
    SpaceLenIs(line, |pad|);
  }

  lemma NamedRest(name: string)
    requires name != "" && forall i :: 0 <= i < |name| ==> IsNameChar(name[i])
    ensures var rest := name + ":";
      && NameLen(rest) == |name| && rest[..|name|] == name && rest[|name|] == ':' && rest[|name| + 1..] == ""
      && !("image:" <= rest && OneWord(rest[6..])) && rest[0] == name[0] && rest[|rest| - 1] == ':'
  {
    var rest := name + ":";
    assert forall i :: 0 <= i < |name| ==> rest[i] == name[i];
    NameLenIs(rest, |name|);
    if "image:" <= rest {
      ImageName(rest);
      assert rest[6..] == "";
    }
  }

  /** What the scanner sees in a line that names a service. */
  lemma NamedLine(pad: string, name: string)
    requires Blanks(pad) && name != "" && forall i :: 0 <= i < |name| ==> IsNameChar(name[i])
    ensures LookAt(pad + (name + ":")) == Look(name + ":" == "services:", false, |pad|, |pad|, Some(name), false)
  {
    NamedRest(name);
    assert IsNameChar(name[0]);
    Indented(pad, name + ":");
    StripNothing(name + ":");
  }

  lemma GivenLine(pad: string, image: string)
    requires Blanks(pad) && IsPlain(image)
    ensures LookAt(pad + ("image: " + image)) == Look(false, false, |pad|, |pad|, None, true)
  {
    var rest := "image: " + image;
    assert rest[0] == 'i';
    Indented(pad, rest);
    ImageRest(pad + rest, image);
    StripStarts(pad + rest);
  }

  lemma MapThree<A, B>(f: A -> B, a: A, b: A, c: A)
    ensures Map(f, [a, b, c]) == [f(a), f(b), f(c)]
  {
    MapAt(f, [a, b, c], 0);
    MapAt(f, [a, b, c], 1);
    MapAt(f, [a, b, c], 2);
  }

  /** A service at indent `n` whose image stands at indent `m`. */
  lemma ThreeLines(looks: seq<Look>, other: string, n: nat, m: nat, service: string, image: string)
    requires n > 0 && m > 0
    requires looks == [Look(true, false, 0, 0, Some(other), false), Look(false, false, n, n, Some(service), false),
                       Look(false, false, m, m, None, true)]
    ensures Flags(looks, service) == [false, false, true] && Count(Flags(looks, service)) == 1
    ensures Stays(looks, service, image) <==> image != "" && (image[0] == '#' ==> m != n)
  {
    var l0, l1, l2 := looks[0], looks[1], looks[2];
    assert looks[..2] == [l0, l1] && [l0, l1][..1] == [l0] && [l0][..0] == [];
    assert ScanOf([l0]) == Scan(true, 0, None, None);
    assert ScanOf([l0, l1]) == Scan(true, 0, Some(n), Some(service));
    assert Flags([l0], service) == [false];
    assert Flags([l0, l1], service) == [false, false];
    assert Flags(looks, service) == [false, false, true];
    assert [false, false, true][..2] == [false, false] && [false, false][..1] == [false];
    assert Stays([l0], service, image) && Stays([l0, l1], service, image);
  }

  lemma WordsAreOneLine(pad: string, name: string, given: string)
    requires Blanks(pad) && NoSpace(given) && forall i :: 0 <= i < |name| ==> IsNameChar(name[i])
    ensures OneLine(pad + (name + ":")) && OneLine(pad + ("image: " + given))
  {
    var rest := "image: " + given;
    assert forall i :: 0 <= i < |given| ==> rest[i + 7] == given[i];
    assert OneLine(rest) && OneLine(name + ":");
  }

  predicate IsService(service: string) {
    && service != "" && service != "image" && service != "services"
    && forall i :: 0 <= i < |service| ==> IsNameChar(service[i])
  }

  /** A Compose file with one service. */
  function OneService(service: string, pad: string, deeper: string, image: string): string {
    Terminated(["services:", pad + (service + ":")]) + (deeper + ("image: " + image))
  }

  lemma OneServiceLooks(opening: string, pad: string, service: string, deeper: string, given: string,
                        l0: string, l1: string, l2: string)
    requires opening == "services" && Blanks(pad) && Blanks(deeper) && IsService(service) && IsPlain(given)
    requires l0 == "" + (opening + ":") && l1 == pad + (service + ":") && l2 == deeper + ("image: " + given)
    ensures LookAt(l0) == Look(true, false, 0, 0, Some(opening), false)
    ensures LookAt(l1) == Look(false, false, |pad|, |pad|, Some(service), false)
    ensures LookAt(l2) == Look(false, false, |deeper|, |deeper|, None, true)
  {
    NamedLine("", opening);
    NamedLine(pad, service);
    GivenLine(deeper, given);
    OtherName(service);
  }

  lemma OneServiceLines(opening: string, pad: string, service: string, deeper: string, given: string,
                        l0: string, l1: string, l2: string)
    requires opening == "services" && Blanks(pad) && Blanks(deeper) && IsService(service) && IsPlain(given)
    requires l0 == "" + (opening + ":") && l1 == pad + (service + ":") && l2 == deeper + ("image: " + given)
    ensures SplitLines(Terminated([l0, l1]) + l2) == [l0, l1, l2] && !EndsInNewline(Terminated([l0, l1]) + l2)
    ensures SpaceLen(l2) == |deeper| && l2[..|deeper|] == deeper
  {
    WordsAreOneLine("", opening, "");
    WordsAreOneLine(pad, service, "");
    WordsAreOneLine(deeper, "", given);
    SplitTerminated([l0, l1], l2);
    assert [l0, l1] + [l2] == [l0, l1, l2];
    assert l2[|l2| - 1] == given[|given| - 1];
    Indented(deeper, "image: " + given);
  }

  /** The rewriting of three lines of which the last gives the image. */
  lemma PutThree(l0: string, l1: string, l2: string, image: string)
    ensures Put([l0, l1, l2], [false, false, true], image) == [l0, l1, Replaced(l2, image)]
    ensures Render([l0, l1, l2], false) == Terminated([l0, l1]) + l2
  {
    PutAt([l0, l1, l2], [false, false, true], image, 0);
    PutAt([l0, l1, l2], [false, false, true], image, 1);
    PutAt([l0, l1, l2], [false, false, true], image, 2);
    assert [l0, l1, l2][..2] == [l0, l1];
  }

  lemma OneServiceSplit(pad: string, service: string, deeper: string, given: string)
    requires Blanks(pad) && Blanks(deeper) && IsService(service) && IsPlain(given)
    ensures var text := OneService(service, pad, deeper, given);
      && SplitLines(text) == ["services:", pad + (service + ":"), deeper + ("image: " + given)] && !EndsInNewline(text)
      && Looks(SplitLines(text)) == [Look(true, false, 0, 0, Some("services"), false),
                                     Look(false, false, |pad|, |pad|, Some(service), false),
                                     Look(false, false, |deeper|, |deeper|, None, true)]
  {
    var opening, l1, l2 := "services", pad + (service + ":"), deeper + ("image: " + given);
    var l0 := "" + (opening + ":");
    assert l0 == "services:";
    OneServiceLines(opening, pad, service, deeper, given, l0, l1, l2);
    OneServiceLooks(opening, pad, service, deeper, given, l0, l1, l2);
    MapThree(LookAt, l0, l1, l2);
  }

  /** The one image of such a file is replaced, whatever it is replaced by. */
  lemma OneServiceRewritten(pad: string, service: string, deeper: string, given: string, image: string)
    requires Blanks(pad) && pad != "" && Blanks(deeper) && deeper != "" && IsService(service) && IsPlain(given)
    ensures Rewritten(OneService(service, pad, deeper, given), service, image)
            == Rendered(OneService(service, pad, deeper, image))
  {
    var l0, l1, l2 := "services:", pad + (service + ":"), deeper + ("image: " + given);
    OneServiceSplit(pad, service, deeper, given);
    ThreeLines(Looks([l0, l1, l2]), "services", |pad|, |deeper|, service, image);
    PutThree(l0, l1, l2, image);
    Indented(deeper, "image: " + given);
    assert Replaced(l2, image) == deeper + ("image: " + image);
    PutThree(l0, l1, Replaced(l2, image), image);
  }

  lemma OneServiceApart(service: string, pad: string, deeper: string, given: string, image: string)
    requires given != image
    ensures OneService(service, pad, deeper, given) != OneService(service, pad, deeper, image)
  {
    var n := |Terminated(["services:", pad + (service + ":")])| + |deeper| + 7;
    assert OneService(service, pad, deeper, given)[n..] == given;
    assert OneService(service, pad, deeper, image)[n..] == image;
  }

  /** Without the condition it is not idempotent. An image that starts a comment is lost by a
      second rewriting exactly if it stands at the indent of its service's name: there it is
      read as the next service. */
  lemma CommentImageIsLost(pad: string, service: string, deeper: string, given: string, image: string)
    requires Blanks(pad) && pad != "" && Blanks(deeper) && deeper != "" && IsService(service) && IsPlain(given)
    requires NoSpace(image) && image != "" && image[0] == '#'
    ensures var once := OneService(service, pad, deeper, image);
      && Rewritten(OneService(service, pad, deeper, given), service, image) == Rendered(once)
      && Rewritten(once, service, image) == if |deeper| == |pad| then Miscounted(0) else Rendered(once)
  {
    OneServiceRewritten(pad, service, deeper, given, image);
    OneServiceSplit(pad, service, deeper, given);
    ThreeLines(Looks(SplitLines(OneService(service, pad, deeper, given))), "services", |pad|, |deeper|, service, image);
    RewriteAgain(OneService(service, pad, deeper, given), service, image);
  }

  // ----- files of many services

  /** One service: its name, the lines above its image, the image, and the lines below. */
  datatype Entry = Entry(name: string, above: seq<string>, given: string, below: seq<string>)

  /** How a file is indented: its services line, the names of services, and their images. */
  datatype Layout = Layout(outer: string, pad: string, deeper: string)

  predicate IsLayout(o: Layout) {
    Blanks(o.outer) && Blanks(o.pad) && Blanks(o.deeper) && |o.outer| < |o.pad| && |o.outer| < |o.deeper|
  }

  /** Any line that belongs to a service: it gives no image, names no service at the indent of
      services, and does not end the block. */
  predicate IsFiller(line: string, o: Layout) {
    var l := LookAt(line);
    OneLine(line) && !l.image && (l.comment || l.blanks > |o.outer|) && (l.name.None? || l.indent != |o.pad|)
  }

  predicate IsEntry(e: Entry, o: Layout) {
    && IsService(e.name) && IsPlain(e.given)
    && (forall i :: 0 <= i < |e.above| ==> IsFiller(e.above[i], o))
    && (forall i :: 0 <= i < |e.below| ==> IsFiller(e.below[i], o))
  }

  /** Lines that open no services. */
  predicate AreOutside(lines: seq<string>) {
    forall i :: 0 <= i < |lines| ==> OneLine(lines[i]) && !LookAt(lines[i]).services
  }

  /** Lines after the block: the first of them ends it. */
  predicate EndsBlock(lines: seq<string>, o: Layout) {
    lines != [] ==> !LookAt(lines[0]).comment && LookAt(lines[0]).blanks <= |o.outer|
  }

  function EntryLines(e: Entry, o: Layout): seq<string> {
    [o.pad + (e.name + ":")] + e.above + [o.deeper + ("image: " + e.given)] + e.below
  }

  function ServiceLines(before: seq<string>, entries: seq<Entry>, o: Layout): seq<string> {
    if entries == [] then before + [o.outer + "services:"]
    else
      var n := |entries| - 1;
      ServiceLines(before, entries[..n], o) + EntryLines(entries[n], o)
  }

  /** A Compose file: lines before, the services, lines after. */
  function FileLines(before: seq<string>, entries: seq<Entry>, after: seq<string>, o: Layout): seq<string> {
    ServiceLines(before, entries, o) + after
  }

  /** The entries with the image of every service of this name replaced. */
  function Reimaged(entries: seq<Entry>, service: string, image: string): (r: seq<Entry>)
    ensures |r| == |entries|
    ensures forall i :: 0 <= i < |r| ==>
      r[i] == if entries[i].name == service then entries[i].(given := image) else entries[i]
  {
    seq(|entries|, i requires 0 <= i < |entries| =>
      if entries[i].name == service then entries[i].(given := image) else entries[i])
  }

  function Named(entries: seq<Entry>, service: string): nat {
    if entries == [] then 0
    else Named(entries[..|entries| - 1], service) + if entries[|entries| - 1].name == service then 1 else 0
  }

  /** The scan is inside the services of such a file. */
  predicate Inside(s: Scan, o: Layout) {
    && s.inServices && s.servicesIndent == |o.outer|
    && (s.serviceIndent == None || s.serviceIndent == Some(|o.pad|))
  }

  /** ... under the service of this name. */
  function Beneath(o: Layout, name: string): Scan {
    Scan(true, |o.outer|, Some(|o.pad|), Some(name))
  }

  /** What the rewriting has made of some lines: the scan, the count and the output. */
  ghost predicate Made(lines: seq<string>, service: string, image: string, s: Scan, count: nat, out: seq<string>) {
    && ScanOf(Looks(lines)) == s && Count(FlagsOf(lines, service)) == count && Output(lines, service, image) == out
  }

  lemma AddLine(lines: seq<string>, line: string, service: string, image: string, s: Scan, count: nat, out: seq<string>)
    requires Made(lines, service, image, s, count, out)
    ensures var s' := Next(s, LookAt(line));
      var hit := Hits(s', LookAt(line), service);
      Made(lines + [line], service, image, s', if hit then count + 1 else count,
           out + [if hit then Replaced(line, image) else line])
  {
    var more := lines + [line];
    OneMore(more, service, image, |lines|);
    assert more[..|lines|] == lines && more[..|lines| + 1] == more;
  }

  /** A line that moves the scan from `s` to `s'` and gives no image of the service stays. */
  lemma AddPlain(lines: seq<string>, line: string, service: string, image: string, s: Scan, count: nat,
                 out: seq<string>, s': Scan, all: seq<string>, made: seq<string>)
    requires Made(lines, service, image, s, count, out) && all == lines + [line] && made == out + [line]
    requires s' == Next(s, LookAt(line)) && !Hits(s', LookAt(line), service)
    ensures Made(all, service, image, s', count, made)
  {
    AddLine(lines, line, service, image, s, count, out);
  }

  lemma RegroupLast<T>(lines: seq<T>, more: seq<T>)
    requires more != []
    ensures lines + more == (lines + more[..|more| - 1]) + [more[|more| - 1]]
  {
  }

  /** A line that leaves the scan where it is, and gives no image of the service. */
  predicate Idles(s: Scan, line: string, service: string) {
    Next(s, LookAt(line)) == s && !Hits(s, LookAt(line), service)
  }

  predicate AllIdle(s: Scan, lines: seq<string>, service: string) {
    forall i :: 0 <= i < |lines| ==> Idles(s, lines[i], service)
  }

  /** Such a line stays after such lines have. */
  lemma AddIdle(lines: seq<string>, more: seq<string>, service: string, image: string, s: Scan, count: nat,
                out: seq<string>)
    requires more != [] && Idles(s, more[|more| - 1], service)
    requires Made(lines + more[..|more| - 1], service, image, s, count, out + more[..|more| - 1])
    ensures Made(lines + more, service, image, s, count, out + more)
  {
    var m := |more| - 1;
    RegroupLast(lines, more);
    RegroupLast(out, more);
    AddPlain(lines + more[..m], more[m], service, image, s, count, out + more[..m], s, lines + more, out + more);
  }

  lemma {:induction false} AddIdles(lines: seq<string>, more: seq<string>, service: string, image: string, s: Scan,
                                    count: nat, out: seq<string>)
    requires Made(lines + [], service, image, s, count, out + []) && AllIdle(s, more, service)
    ensures Made(lines + more, service, image, s, count, out + more)
  {
    if more == [] {
    } else {
      AddIdles(lines, more[..|more| - 1], service, image, s, count, out);
      AddIdle(lines, more, service, image, s, count, out);
    }
  }

  /** Such lines stay. */
  lemma AddStill(lines: seq<string>, more: seq<string>, service: string, image: string, s: Scan, count: nat,
                 out: seq<string>, all: seq<string>, made: seq<string>)
    requires Made(lines, service, image, s, count, out) && all == lines + more && made == out + more
    requires AllIdle(s, more, service)
    ensures Made(all, service, image, s, count, made)
  {
    assert lines + [] == lines && out + [] == out;
    AddIdles(lines, more, service, image, s, count, out);
  }

  lemma ImageReplaced(deeper: string, given: string, image: string)
    requires Blanks(deeper) && IsPlain(given)
    ensures Replaced(deeper + ("image: " + given), image) == deeper + ("image: " + image)
  {
    Indented(deeper, "image: " + given);
  }

  /** The name of a service and the lines above its image. */
  lemma AddTop(lines: seq<string>, e: Entry, o: Layout, service: string, image: string, s: Scan, count: nat,
               out: seq<string>, all: seq<string>, made: seq<string>)
    requires Made(lines, service, image, s, count, out) && Inside(s, o) && IsEntry(e, o) && IsLayout(o)
    requires all == lines + [o.pad + (e.name + ":")] + e.above && made == out + [o.pad + (e.name + ":")] + e.above
    ensures Made(all, service, image, Beneath(o, e.name), count, made)
  {
    var line := o.pad + (e.name + ":");
    NamedLine(o.pad, e.name);
    AddPlain(lines, line, service, image, s, count, out, Beneath(o, e.name), lines + [line], out + [line]);
    AddStill(lines + [line], e.above, service, image, Beneath(o, e.name), count, out + [line], all, made);
  }

  lemma AddImage(lines: seq<string>, name: string, given: string, o: Layout, service: string, image: string, count: nat,
                 out: seq<string>)
    requires Made(lines, service, image, Beneath(o, name), count, out) && IsLayout(o) && IsPlain(given)
    ensures Made(lines + [o.deeper + ("image: " + given)], service, image, Beneath(o, name),
                 if name == service then count + 1 else count,
                 out + [o.deeper + ("image: " + if name == service then image else given)])
  {
    GivenLine(o.deeper, given);
    ImageReplaced(o.deeper, given, image);
    AddLine(lines, o.deeper + ("image: " + given), service, image, Beneath(o, name), count, out);
  }

  /** Its image and the lines below. */
  lemma AddBottom(lines: seq<string>, e: Entry, o: Layout, service: string, image: string, count: nat, out: seq<string>,
                  e': Entry, count': nat, all: seq<string>, made: seq<string>)
    requires Made(lines, service, image, Beneath(o, e.name), count, out) && IsEntry(e, o) && IsLayout(o)
    requires count' == if e.name == service then count + 1 else count
    requires e' == if e.name == service then e.(given := image) else e
    requires all == lines + [o.deeper + ("image: " + e.given)] + e.below
    requires made == out + [o.deeper + ("image: " + e'.given)] + e.below
    ensures Made(all, service, image, Beneath(o, e.name), count', made)
  {
    AddImage(lines, e.name, e.given, o, service, image, count, out);
    AddStill(lines + [o.deeper + ("image: " + e.given)], e.below, service, image, Beneath(o, e.name), count',
             out + [o.deeper + ("image: " + e'.given)], all, made);
  }

  lemma Regroup<T>(lines: seq<T>, a: seq<T>, b: seq<T>, c: seq<T>, d: seq<T>)
    ensures lines + (a + b + c + d) == lines + a + b + c + d
  {
  }

  lemma AddEntry(lines: seq<string>, e: Entry, o: Layout, service: string, image: string, s: Scan, count: nat,
                 out: seq<string>, e': Entry, count': nat, all: seq<string>, made: seq<string>)
    requires Made(lines, service, image, s, count, out) && Inside(s, o) && IsEntry(e, o) && IsLayout(o)
    requires e' == if e.name == service then e.(given := image) else e
    requires count' == if e.name == service then count + 1 else count
    requires all == lines + EntryLines(e, o) && made == out + EntryLines(e', o)
    ensures Made(all, service, image, Beneath(o, e.name), count', made)
  {
    var name, given, given' :=
      o.pad + (e.name + ":"), o.deeper + ("image: " + e.given), o.deeper + ("image: " + e'.given);
    Regroup(lines, [name], e.above, [given], e.below);
    Regroup(out, [name], e.above, [given'], e.below);
    AddTop(lines, e, o, service, image, s, count, out, lines + [name] + e.above, out + [name] + e.above);
    AddBottom(lines + [name] + e.above, e, o, service, image, count, out + [name] + e.above, e', count', all, made);
  }

  lemma ServicesLine(outer: string, line: string)
    requires Blanks(outer) && line == outer + "services:"
    ensures LookAt(line).services && LookAt(line).blanks == |outer| && !LookAt(line).image && OneLine(line)
  {
    var opening := "services";
    assert line == outer + (opening + ":");
    NamedLine(outer, opening);
    WordsAreOneLine(outer, opening, "");
  }

  /** The lines before the services, and the line that opens them. */
  lemma Opening(before: seq<string>, o: Layout, service: string, image: string)
    requires AreOutside(before) && IsLayout(o)
    ensures var lines := before + [o.outer + "services:"];
      Made(lines, service, image, Scan(true, |o.outer|, None, None), 0, lines)
  {
    var line := o.outer + "services:";
    assert Made([], service, image, START, 0, []);
    assert [] + before == before;
    AddStill([], before, service, image, START, 0, [], before, before);
    ServicesLine(o.outer, line);
    AddPlain(before, line, service, image, START, 0, before, Scan(true, |o.outer|, None, None), before + [line],
             before + [line]);
  }

  lemma {:induction false} EntriesMade(before: seq<string>, entries: seq<Entry>, o: Layout, service: string,
                                       image: string) returns (s: Scan)
    requires AreOutside(before) && IsLayout(o) && forall i :: 0 <= i < |entries| ==> IsEntry(entries[i], o)
    ensures Inside(s, o)
    ensures Made(ServiceLines(before, entries, o), service, image, s, Named(entries, service),
                 ServiceLines(before, Reimaged(entries, service, image), o))
  {
    if entries == [] {
      Opening(before, o, service, image);
      s := Scan(true, |o.outer|, None, None);
    } else {
      var n := |entries| - 1;
      s := EntriesMade(before, entries[..n], o, service, image);
      var made := Reimaged(entries, service, image);
      assert made[..n] == Reimaged(entries[..n], service, image);
      AddEntry(ServiceLines(before, entries[..n], o), entries[n], o, service, image, s, Named(entries[..n], service),
               ServiceLines(before, made[..n], o), made[n], Named(entries, service), ServiceLines(before, entries, o),
               ServiceLines(before, made, o));
      s := Beneath(o, entries[n].name);
    }
  }

  /** Outside the services, nothing that opens none moves the scan. */
  lemma OutsideIdles(s: Scan, lines: seq<string>, service: string)
    requires !s.inServices && s.current == None && AreOutside(lines)
    ensures AllIdle(s, lines, service)
  {
  }

  lemma RegroupFirst<T>(lines: seq<T>, more: seq<T>)
    requires more != []
    ensures lines + more == (lines + [more[0]]) + more[1..]
  {
  }

  /** The lines after the services. */
  lemma Closing(lines: seq<string>, after: seq<string>, o: Layout, service: string, image: string, s: Scan, count: nat,
                out: seq<string>) returns (s': Scan)
    requires Made(lines, service, image, s, count, out) && Inside(s, o) && AreOutside(after) && EndsBlock(after, o)
    ensures Made(lines + after, service, image, s', count, out + after)
  {
    s' := s;
    if after == [] {
      assert lines + after == lines && out + after == out;
    } else {
      s' := s.(inServices := false, current := None);
      AddPlain(lines, after[0], service, image, s, count, out, s', lines + [after[0]], out + [after[0]]);
      RegroupFirst(lines, after);
      RegroupFirst(out, after);
      OutsideIdles(s', after[1..], service);
      AddStill(lines + [after[0]], after[1..], service, image, s', count, out + [after[0]], lines + after, out + after);
    }
  }

  lemma {:induction false} LinesAreOne(before: seq<string>, entries: seq<Entry>, o: Layout)
    requires AreOutside(before) && IsLayout(o) && forall i :: 0 <= i < |entries| ==> IsEntry(entries[i], o)
    ensures forall k :: 0 <= k < |ServiceLines(before, entries, o)| ==> OneLine(ServiceLines(before, entries, o)[k])
  {
    if entries == [] {
      ServicesLine(o.outer, o.outer + "services:");
    } else {
      var n := |entries| - 1;
      LinesAreOne(before, entries[..n], o);
      WordsAreOneLine(o.pad, entries[n].name, "");
      WordsAreOneLine(o.deeper, "", entries[n].given);
    }
  }

  /** Of a file of any services, with any other lines in, before and after them, exactly the image
      of the one asked for is replaced; if there is none of that name, or several, their number
      is reported. */
  lemma ServicesRewritten(before: seq<string>, entries: seq<Entry>, after: seq<string>, o: Layout, service: string,
                          image: string)
    requires AreOutside(before) && AreOutside(after) && EndsBlock(after, o) && IsLayout(o)
    requires forall i :: 0 <= i < |entries| ==> IsEntry(entries[i], o)
    ensures Rewritten(Terminated(FileLines(before, entries, after, o)), service, image)
      == if Named(entries, service) == 1
         then Rendered(Terminated(FileLines(before, Reimaged(entries, service, image), after, o)))
         else Miscounted(Named(entries, service))
  {
    LinesAreOne(before, entries, o);
    var made := ServiceLines(before, Reimaged(entries, service, image), o);
    var s := EntriesMade(before, entries, o, service, image);
    s := Closing(ServiceLines(before, entries, o), after, o, service, image, s, Named(entries, service), made);
    SomeLines(before, entries, after, o);
    MadeIsRewritten(FileLines(before, entries, after, o), service, image, s, Named(entries, service), made + after);
  }

  lemma {:induction false} SomeLines(before: seq<string>, entries: seq<Entry>, after: seq<string>, o: Layout)
    ensures |ServiceLines(before, entries, o)| > 0 && FileLines(before, entries, after, o) != []
  {
    if entries != [] {
      SomeLines(before, entries[..|entries| - 1], after, o);
    }
  }

  lemma MadeIsRewritten(lines: seq<string>, service: string, image: string, s: Scan, count: nat, made: seq<string>)
    requires Made(lines, service, image, s, count, made) && lines != []
    requires forall k :: 0 <= k < |lines| ==> OneLine(lines[k])
    ensures Rewritten(Terminated(lines), service, image)
      == if count == 1 then Rendered(Terminated(made)) else Miscounted(count)
  {
    SplitTerminated(lines, "");
    assert Terminated(lines) + "" == Terminated(lines) && lines + [] == lines;
    TerminatedEnds(lines);
  }

  lemma OtherName(service: string)
    requires service != "services"
    ensures service + ":" != "services:"
  {
    assert (service + ":")[..|service|] == service;
    assert "services:"[..8] == "services";
  }
}
