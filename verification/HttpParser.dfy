/**
 HttpParser itself: the fields it updates in place and the loops that move its
 position, each proved to do what HttpSpec says.
 */
module HttpParser {
  import opened HttpSpec
  import opened Wrappers
  import HttpUnits

  class HttpParser {
    const files: Files
    var connecting: bool
    var pos: nat
    var checkState: CheckState
    var state: HttpState
    var contentLength: nat
    var input: string
    var request: Request
    var version: Version
    var sent: seq<Exchange>  // what conn->send was given, oldest first

    /** The request and response records start with whatever they held. */
    constructor (files: Files, request: Request, version: Version)
      ensures Value() == Parser(false, 0, CheckRequestLine, NoRequest, 0, "", request, version, [])
      ensures this.files == files && Wf(Value())
    {
      this.files := files;
      connecting, pos, checkState, state, contentLength := false, 0, CheckRequestLine, NoRequest, 0;
      input, sent := "", [];
      this.request, this.version := request, version;
    }

    function Value(): Parser
      reads this
    {
      Parser(connecting, pos, checkState, state, contentLength, input, request, version, sent)
    }

    method ParseLine() returns (r: Option<LineState>)
      requires pos <= |input|
      modifies this`input, this`pos
      ensures match HttpSpec.ParseLine(old(input), old(pos))
              case BeforeStart => r.None?
              case Scan(line, i, k) => r == Some(line) && input == i && pos == k
    {
      var n := |input|;
      while pos < n
        invariant pos <= n == |input| && input == old(input)
        invariant HttpSpec.ParseLine(input, pos) == HttpSpec.ParseLine(old(input), old(pos))
      {
        if input[pos] == '\r' {
          if pos == n - 1 {
            return Some(LineOpen);
          }
          if input[pos + 1] == '\n' {
            input := input[pos := '\0'];
            input := input[pos + 1 := '\0'];
            pos := pos + 2;
            return Some(LineOK);
          }
          return Some(LineBad);
        }
        if input[pos] == '\n' {
          if pos == 0 {
            return None;
          }
          if input[pos - 1] == '\r' {
            input := input[pos - 1 := '\0'];
            input := input[pos := '\0'];
            pos := pos + 1;
            return Some(LineOK);
          }
          return Some(LineBad);
        }
        pos := pos + 1;
      }
      return Some(LineOpen);
    }

    method SetMethod(text: string) returns (ok: bool)
      modifies this`request
      ensures Value() == old(Value()).(request := old(request).(meth := ToMethod(text))) && ok == (ToMethod(text) != InvalidMethod)
    {
      request := request.(meth := ToMethod(text));
      ok := request.meth != InvalidMethod;
    }

    method SetURI(uri: string)
      modifies this`request
      ensures Value() == old(Value()).(request := old(request).(uri := PathOf(uri, old(request).uri)))
    {
      var begin := 0;
      if SCHEME <= uri {
        begin := begin + 7;
      }
      var slash := Find(uri, "/", begin);
      if slash.None? {
        return;
      }
      request := request.(uri := uri[slash.value..]);
    }

    method SetVersion(text: string) returns (ok: bool)
      modifies this`request, this`version
      ensures Value() == old(Value()).(request := old(request).(version := ToVersion(text)), version := ToVersion(text))
      ensures ok == (ToVersion(text) != Unknown)
    {
      request := request.(version := ToVersion(text));
      version := ToVersion(text);
      ok := version != Unknown;
    }

    method ParseRequestLine(line: string) returns (ret: HttpState)
      modifies this`request, this`version, this`checkState
      ensures (Value(), ret) == HttpSpec.ParseRequestLine(old(Value()), line)
    {
      ghost var p := Value();
      var space := Find(line, " ", 0);
      if space.None? {
        return Invalid;
      }
      var i: nat := space.value;
      var ok := SetMethod(line[..i]);
      ghost var p1 := p.(request := p.request.(meth := ToMethod(line[..i])));
      assert Value() == p1;
      if !ok {
        return Invalid;
      }
      space := Find(line, " ", i + 1);
      if space.None? || space.value == i + 1 {
        return Invalid;
      }
      var j: nat := space.value;
      SetURI(line[i + 1..j]);
      ghost var p2 := p1.(request := p1.request.(uri := PathOf(line[i + 1..j], p1.request.uri)));
      assert Value() == p2;
      if |line| == j + 1 {
        return Invalid;
      }
      ok := SetVersion(line[j + 1..]);
      ghost var v := ToVersion(line[j + 1..]);
      assert Value() == p2.(request := p2.request.(version := v), version := v);
      if !ok {
        return Invalid;
      }
      checkState := CheckHeader;
      return NoRequest;
    }

    method ParseHeaders(line: string) returns (ret: HttpState)
      modifies this`contentLength, this`connecting, this`request, this`checkState
      ensures (Value(), ret) == HttpSpec.ParseHeaders(old(Value()), line)
    {
      if line == "" {
        if contentLength != 0 {
          checkState := CheckContent;
          return NoRequest;
        }
        return GetRequest;
      }
      var colon := Find(line, ": ", 0);
      if colon.None? {
        return Invalid;
      }
      var key := line[..colon.value];
      if |line| <= colon.value + 2 {
        return Invalid;
      }
      var value := line[colon.value + 2..];
      if key == "Content-Length" {
        contentLength := ToSize(Atoi(value));
      } else if key == "Connection" && (value == "keep-alive" || value == "Keep-Alive") {
        connecting := true;
      }
      request := request.(headers := request.headers[key := value]);
      return NoRequest;
    }

    /** Takes the body when all of it has arrived. */
    method ParseContent() returns (ret: HttpState)
      requires pos <= |input|
      modifies this`request, this`pos
      ensures if |input| - old(pos) >= contentLength
              then ret == GetRequest && Value() == RecvBody(old(Value()))
              else ret == NoRequest && Value() == old(Value())
    {
      if |input| - pos >= contentLength {
        request := request.(body := input[pos..pos + contentLength]);
        pos := pos + contentLength;
        return GetRequest;
      }
      return NoRequest;
    }

    method DoRequest() returns (ret: HttpState)
      modifies this`state
      ensures Value() == HttpSpec.DoRequest(old(Value()), files) && ret == state
    {
      if request.meth == HEAD {
        state := OnlyHead;
      } else {
        state := GetResourceState(files, request.uri);
      }
      ret := state;
    }

    /** The two cases of the main loop that read a line of the head. */
    method TakeLine(line: string) returns (ret: HttpState)
      modifies this
      ensures Value() == HttpSpec.TakeLine(old(Value()), line, files).0
      ensures ret == HttpSpec.TakeLine(old(Value()), line, files).1
    {
      if checkState == CheckHeader {
        ret := ParseHeaders(line);
        if ret == GetRequest {
          ret := DoRequest();
        }
      } else {
        ret := ParseRequestLine(line);
        if ret == Invalid {
          state := Invalid;
        }
      }
    }

    /** The body case of the main loop: the request is answered once its body is there. */
    method TakeBody() returns (ret: HttpState)
      requires pos <= |input|
      modifies this
      ensures if old(|input| - pos >= contentLength)
              then Value() == HttpSpec.DoRequest(RecvBody(old(Value())), files) && ret == state && ret != NoRequest
              else ret == NoRequest && Value() == old(Value())
    {
      ret := ParseContent();
      if ret == GetRequest {
        ret := DoRequest();
      }
    }

    method ProcessRead() returns (ret: Option<HttpState>)
      requires Wf(Value())
      modifies this
      ensures HttpSpec.ProcessRead(old(Value()), files) ==
        if ret.None? then Undefined else Answer(Value(), ret.value)
    {
      var lineOK := true;
      var begin: nat := pos;
      ghost var answer := HttpSpec.ProcessRead(Value(), files);
      while true
        invariant begin <= pos <= |input|
        invariant answer == ReadLoop(Value(), begin, lineOK, files)
        decreases |input| - pos, if checkState == CheckContent && lineOK then 1 else 0
      {
        if !(checkState == CheckContent && lineOK) {
          var line := ParseLine();
          if line.None? {
            return None;
          }
          if line.value == LineBad {
            state := Invalid;
            return Some(Invalid);
          }
          if line.value == LineOpen {
            break;
          }
          lineOK := true;
        }
        var r;
        if checkState == CheckContent {
          r := TakeBody();
          lineOK := false;
        } else {
          r := TakeLine(UpToNul(input[begin..]));
        }
        if r != NoRequest {
          return Some(r);
        }
        begin := pos;
      }
      state := NoRequest;
      return Some(NoRequest);
    }

    /** processWrite and send. */
    method Respond()
      modifies this`sent
      ensures Value() == HttpSpec.Respond(old(Value()))
    {
      sent := sent + [Exchange(request, version, state, connecting)];
    }

    method Init(clear: bool)
      modifies this`checkState, this`state, this`contentLength, this`input, this`pos
      ensures Value() == HttpSpec.Init(old(Value()), clear)
    {
      checkState := CheckRequestLine;
      state := NoRequest;
      contentLength := 0;
      if clear {
        input := "";
        pos := 0;
      }
    }

    /** Runs until the source's loop returns; `None` when it reads before the input, or when
        a turn has consumed nothing, from where the source's loop would never return. */
    method Process() returns (keep: Option<bool>)
      requires Wf(Value())
      modifies this
      ensures match HttpSpec.Process(old(Value()), files)
              case Returned(p, k) => Value() == p && keep == Some(k)
              case _ => keep.None?
    {
      ghost var outcome := HttpSpec.Process(Value(), files);
      while true
        invariant Wf(Value()) && outcome == HttpSpec.Process(Value(), files)
        decreases |input| - pos
      {
        var before := |input| - pos;
        var r := ProcessRead();
        if r.None? {
          return None;
        }
        if r.value == NoRequest {
          return Some(connecting);
        }
        Respond();
        if !connecting {
          return Some(false);
        }
        Init(|input| == pos);
        if |input| - pos >= before {
          return None;
        }
      }
    }

    predicate HasData()
      reads this
    {
      input == "" && pos == 0
    }

    method NewInput(data: string)
      modifies this`input, this`pos
      ensures input == data && pos == 0
    {
      input, pos := data, 0;
    }

    method AppendInput(data: string)
      modifies this`input
      ensures input == old(input) + data
    {
      input := input + data;
    }

    /** The parser's part of HttpServer::onMessage. */
    method OnMessage(message: string) returns (keep: Option<bool>)
      requires Wf(Value())
      modifies this
      ensures match HttpUnits.OnMessage(old(Value()), message, files)
              case Returned(p, k) => Value() == p && keep == Some(k)
              case _ => keep.None?
    {
      if HasData() {
        AppendInput(message);
      } else {
        NewInput(message);
      }
      assert Value() == HttpUnits.TakeInput(old(Value()), message);
      keep := Process();
    }
  }
}
