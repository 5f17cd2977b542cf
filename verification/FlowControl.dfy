/** The send windows of one HTTP/2 endpoint (sections 5.2, 6.9.1 and 6.9.2 of RFC 9113), shared by
    the server and the client connection. */
module FlowControl {
  import opened Bytes

  const DEFAULT_WINDOW := 65535
  const DEFAULT_FRAME := 16384
  const MAX_WINDOW := 0x7fff_ffff

  datatype Setting = InitialWindowSize(value: nat) | MaxFrameSize(value: nat) | EnableConnect(value: nat) | OtherSetting

  /** Only the client looks at SETTINGS_ENABLE_CONNECT_PROTOCOL, and rejects values over one. */
  predicate Refused(s: Setting, client: bool) { client && s.EnableConnect? && s.value > 1 }

  datatype Target = Connection | Stream | Elsewhere

  /** `live` says that the connection has a stream ID, so SETTINGS move its stream window; the
      client has one from the start, the server from the CONNECT request on. */
  datatype Windows = Windows(conn: int, stream: int, initial: int, maxFrame: nat, live: bool)

  const SERVER_START := Windows(DEFAULT_WINDOW, DEFAULT_WINDOW, DEFAULT_WINDOW, DEFAULT_FRAME, false)
  const CLIENT_START := SERVER_START.(live := true)

  function OnSetting(w: Windows, s: Setting): (r: Windows) {
    match s
    case InitialWindowSize(v) => w.(initial := v, stream := if w.live then w.stream + (v - w.initial) else w.stream)
    case MaxFrameSize(v) => w.(maxFrame := v)
    case EnableConnect(_) => w
    case OtherSetting => w
  }

  function OnUpdate(w: Windows, target: Target, increment: nat): (r: Windows) {
    match target
    case Connection => w.(conn := w.conn + increment)
    case Stream => if w.live then w.(stream := w.stream + increment) else w
    case Elsewhere => w
  }

  /** The error test of handleWindowUpdate, made after the windows have been changed. */
  predicate Overflow(w: Windows) { w.conn > MAX_WINDOW || w.stream > MAX_WINDOW }

  function StartStream(w: Windows): (r: Windows) { w.(stream := w.initial, live := true) }

  function Min(a: int, b: int): (m: int) { if b < a then b else a }

  /** How much of `want` bytes may go into the next DATA frame; nothing if not positive. */
  function Usable(w: Windows, want: nat): (n: int)
    ensures n <= w.conn && n <= w.stream && n <= w.maxFrame && n <= want
    ensures n == w.conn || n == w.stream || n == w.maxFrame || n == want
  {
    Min(Min(Min(w.conn, w.stream), w.maxFrame), want)
  }

  function Reserve(w: Windows, n: nat): (r: Windows) {
    w.(conn := w.conn - n, stream := w.stream - n)
  }

  // ---------------------------------------------------------------- what a peer does to the windows

  datatype Nudge = GotSetting(setting: Setting) | GotUpdate(target: Target, increment: nat)

  function Apply(w: Windows, e: Nudge): (r: Windows) {
    match e
    case GotSetting(s) => OnSetting(w, s)
    case GotUpdate(t, n) => OnUpdate(w, t, n)
  }

  function ApplyAll(w: Windows, es: seq<Nudge>): (r: Windows)
    ensures r.live == w.live
    decreases es
  {
    if es == [] then w else ApplyAll(Apply(w, es[0]), es[1..])
  }

  function Nudges(settings: seq<Setting>): (es: seq<Nudge>)
    ensures |es| == |settings|
  {
    seq(|settings|, i requires 0 <= i < |settings| => GotSetting(settings[i]))
  }

  lemma ApplyAllNext(w: Windows, es: seq<Nudge>, n: nat)
    requires n < |es|
    ensures ApplyAll(w, es[..n + 1]) == Apply(ApplyAll(w, es[..n]), es[n])
  {
    assert es[..n + 1] == es[..n] + [es[n]];
    ApplyAllAppend(w, es[..n], [es[n]]);
    assert [es[n]][1..] == [];
  }

  function Credit(es: seq<Nudge>, target: Target): (n: nat) {
    if es == [] then 0 else
    (if es[0].GotUpdate? && es[0].target == target then es[0].increment else 0) + Credit(es[1..], target)
  }

  /** Any sequence of SETTINGS and WINDOW_UPDATE moves the windows by exactly the credit it carries
      and the change of the initial window. */
  lemma {:induction false} ApplyAllAccount(w: Windows, es: seq<Nudge>)
    ensures ApplyAll(w, es).conn == w.conn + Credit(es, Connection)
    ensures w.live ==> Accounts(w, ApplyAll(w, es), es, 0)
    decreases es
  {
    if es != [] {
      ApplyAllAccount(Apply(w, es[0]), es[1..]);
    }
  }

  /** From w0 to w by what the peer did and by `spent` reserved bytes. */
  predicate Accounts(w0: Windows, w: Windows, es: seq<Nudge>, spent: int) {
    && w.conn == w0.conn + Credit(es, Connection) - spent
    && w.stream - w.initial == w0.stream - w0.initial + Credit(es, Stream) - spent
  }

  // ---------------------------------------------------------------- what the peer announced last

  /** The frame limit after these settings, in order, if it was `limit` before: the last one announced. */
  function LastFrameLimit(settings: seq<Setting>, limit: nat): (n: nat) {
    if settings == [] then limit else
    var last := settings[|settings| - 1];
    if last.MaxFrameSize? then last.value else LastFrameLimit(settings[..|settings| - 1], limit)
  }

  /** The initial window likewise. */
  function LastInitial(settings: seq<Setting>, initial: int): (n: int) {
    if settings == [] then initial else
    var last := settings[|settings| - 1];
    if last.InitialWindowSize? then last.value else LastInitial(settings[..|settings| - 1], initial)
  }

  lemma LastOfMore(settings: seq<Setting>, s: Setting, limit: nat, initial: int)
    ensures LastFrameLimit(settings + [s], limit) ==
            if s.MaxFrameSize? then s.value else LastFrameLimit(settings, limit)
    ensures LastInitial(settings + [s], initial) ==
            if s.InitialWindowSize? then s.value else LastInitial(settings, initial)
  {
    assert (settings + [s])[..|settings|] == settings;
  }

  lemma {:induction false} ApplyLast(w: Windows, settings: seq<Setting>, n: nat)
    requires n <= |settings|
    ensures ApplyAll(w, Nudges(settings)[..n]).maxFrame == LastFrameLimit(settings[..n], w.maxFrame)
    ensures ApplyAll(w, Nudges(settings)[..n]).initial == LastInitial(settings[..n], w.initial)
  {
    if n > 0 {
      ApplyLast(w, settings, n - 1);
      ApplyAllNext(w, Nudges(settings), n - 1);
      LastOfMore(settings[..n - 1], settings[n - 1], w.maxFrame, w.initial);
      assert settings[..n - 1] + [settings[n - 1]] == settings[..n];
    }
  }

  // ---------------------------------------------------------------- chunks

  /** One DATA frame, with the limits in force when its bytes were reserved. */
  datatype Chunk = Chunk(data: seq<Byte>, end: bool, at: Windows)

  function Datas(cs: seq<Chunk>): (d: seq<seq<Byte>>)
    ensures |d| == |cs|
  {
    seq(|cs|, i requires 0 <= i < |cs| => cs[i].data)
  }

  function Sent(cs: seq<Chunk>): (s: seq<Byte>) { Concat(Datas(cs)) }

  lemma SentAppend(cs: seq<Chunk>, c: Chunk)
    ensures Sent(cs + [c]) == Sent(cs) + c.data
  {
    assert Datas(cs + [c]) == Datas(cs) + [c.data];
    ConcatAppend(Datas(cs), c.data);
  }

  /** A frame with payload respects both windows and the frame limit of its reservation. */
  predicate InLimits(c: Chunk) {
    c.data != [] ==> |c.data| <= c.at.conn && |c.data| <= c.at.stream && |c.data| <= c.at.maxFrame
  }

  predicate AllInLimits(cs: seq<Chunk>) { forall i :: 0 <= i < |cs| ==> InLimits(cs[i]) }

  predicate NoEnd(cs: seq<Chunk>) { forall i :: 0 <= i < |cs| ==> !cs[i].end }

  /** The frames of a finished writeData call: the input in order, END_STREAM on the last frame if
      it was asked for and on no other. */
  predicate Complete(input: seq<Byte>, end: bool, cs: seq<Chunk>) {
    cs != [] && Sent(cs) == input && NoEnd(cs[..|cs| - 1]) && cs[|cs| - 1].end == end && AllInLimits(cs)
  }

  /** The frames of an unfinished one: the input up to `rest`, the stream still open. */
  predicate Partial(input: seq<Byte>, rest: seq<Byte>, cs: seq<Chunk>) {
    Sent(cs) + rest == input && NoEnd(cs) && AllInLimits(cs)
  }

  lemma PartialIsPrefix(input: seq<Byte>, rest: seq<Byte>, cs: seq<Chunk>)
    requires Partial(input, rest, cs) && rest != []
    ensures Sent(cs) < input
  {
  }

  /** The next frame of a partial call keeps it partial or completes it. */
  lemma NextChunk(input: seq<Byte>, end: bool, rest: seq<Byte>, cs: seq<Chunk>, n: nat, at: Windows)
    requires Partial(input, rest, cs) && n <= |rest|
    requires n > 0 ==> n <= at.conn && n <= at.stream && n <= at.maxFrame
    ensures var c := Chunk(rest[..n], end && n == |rest|, at);
            if n == |rest| then Complete(input, end, cs + [c]) else Partial(input, rest[n..], cs + [c])
  {
    var c := Chunk(rest[..n], end && n == |rest|, at);
    SentAppend(cs, c);
    LimitsAppend(cs, c);
    Split(Sent(cs), rest, n);
    if n == |rest| {
      assert (cs + [c])[..|cs|] == cs && rest[n..] == [];
      assert Sent(cs) + rest[..n] + [] == Sent(cs) + rest[..n];
    }
  }

  predicate Progress(input: seq<Byte>, end: bool, rest: seq<Byte>, cs: seq<Chunk>) {
    if rest == [] then Complete(input, end, cs) else Partial(input, rest, cs)
  }

  lemma Proceeds(input: seq<Byte>, end: bool, rest: seq<Byte>, cs: seq<Chunk>, n: nat, c: Chunk)
    requires Partial(input, rest, cs) && 0 < n <= |rest| && c == Chunk(rest[..n], end && n == |rest|, c.at)
    requires n <= c.at.conn && n <= c.at.stream && n <= c.at.maxFrame
    ensures Progress(input, end, rest[n..], cs + [c]) && |Sent(cs + [c])| == |Sent(cs)| + n
  {
    NextChunk(input, end, rest, cs, n, c.at);
    SentAppend(cs, c);
  }

  lemma LimitsAppend(cs: seq<Chunk>, c: Chunk)
    requires AllInLimits(cs) && InLimits(c)
    ensures AllInLimits(cs + [c]) && (NoEnd(cs) && !c.end ==> NoEnd(cs + [c]))
  {
  }

  lemma Split(a: seq<Byte>, rest: seq<Byte>, n: nat)
    requires n <= |rest|
    ensures a + rest[..n] + rest[n..] == a + rest
  {
    assert rest == rest[..n] + rest[n..];
  }

  // ---------------------------------------------------------------- the connection object

  class Sender {
    var peerConnWindow: int
    var peerStreamWindow: int
    var peerInitialWindow: int
    var peerMaxFrameSize: nat
    var hasStream: bool
    /** flowCh, a channel of capacity one: whether it holds a token. */
    var flowToken: bool

    constructor (start: Windows)
      ensures View() == start && !flowToken
    {
      peerConnWindow, peerStreamWindow := start.conn, start.stream;
      peerInitialWindow, peerMaxFrameSize := start.initial, start.maxFrame;
      hasStream, flowToken := start.live, false;
    }

    function View(): (w: Windows)
      reads this
    {
      Windows(peerConnWindow, peerStreamWindow, peerInitialWindow, peerMaxFrameSize, hasStream)
    }

    /** One callback of ForeachSetting, under flowMu. */
    method HandleSetting(s: Setting)
      modifies this
      ensures View() == OnSetting(old(View()), s) && flowToken == old(flowToken)
      ensures s.MaxFrameSize? ==> peerMaxFrameSize == s.value && peerInitialWindow == old(peerInitialWindow)
      ensures s.InitialWindowSize? ==> peerInitialWindow == s.value && peerMaxFrameSize == old(peerMaxFrameSize)
      ensures s.InitialWindowSize? && hasStream ==>
                peerStreamWindow == old(peerStreamWindow) + s.value - old(peerInitialWindow)
    {
      match s
      case InitialWindowSize(value) =>
        var delta := value - peerInitialWindow;
        peerInitialWindow := value;
        if hasStream { peerStreamWindow := peerStreamWindow + delta; }
      case MaxFrameSize(value) => peerMaxFrameSize := value;
      case EnableConnect(_) =>
      case OtherSetting =>
    }

    /** handleSettings of either end: settings take effect up to the first refused one. The server posts
        its token before the acknowledgement is written, the client after. */
    method HandleSettings(settings: seq<Setting>, client: bool, ackOk: bool) returns (ok: bool, applied: nat)
      modifies this
      ensures applied <= |settings| && forall i :: 0 <= i < applied ==> !Refused(settings[i], client)
      ensures applied < |settings| ==> Refused(settings[applied], client)
      ensures View() == ApplyAll(old(View()), Nudges(settings)[..applied])
      ensures peerMaxFrameSize == LastFrameLimit(settings[..applied], old(peerMaxFrameSize))
      ensures peerInitialWindow == LastInitial(settings[..applied], old(peerInitialWindow))
      ensures ok == (applied == |settings| && ackOk)
      ensures flowToken == (old(flowToken) || (applied == |settings| && (client ==> ackOk)))
    {
      var nudges := Nudges(settings);
      ghost var w0 := View();
      applied := 0;
      while applied < |settings|
        invariant applied <= |settings| && forall i :: 0 <= i < applied ==> !Refused(settings[i], client)
        invariant View() == ApplyAll(old(View()), nudges[..applied]) && flowToken == old(flowToken)
      {
        if client && settings[applied].EnableConnect? && settings[applied].value > 1 {
          ApplyLast(w0, settings, applied);
          return false, applied;
        }
        ApplyAllNext(old(View()), nudges, applied);
        HandleSetting(settings[applied]);
        applied := applied + 1;
      }
      ApplyLast(w0, settings, applied);
      if !client { flowToken := true; }
      if !ackOk { return false, applied; }
      flowToken := true;
      ok := true;
    }

    /** An accepted WINDOW_UPDATE leaves both windows within 2^31-1 and posts a token; a rejected
        one has changed the windows all the same. */
    method HandleWindowUpdate(target: Target, increment: nat) returns (ok: bool)
      modifies this
      ensures View() == OnUpdate(old(View()), target, increment)
      ensures ok <==> View().conn <= MAX_WINDOW && View().stream <= MAX_WINDOW
      ensures flowToken == (ok || old(flowToken))
    {
      match target {
        case Connection => peerConnWindow := peerConnWindow + increment;
        case Stream => if hasStream { peerStreamWindow := peerStreamWindow + increment; }
        case Elsewhere =>
      }
      if peerConnWindow > MAX_WINDOW || peerStreamWindow > MAX_WINDOW { return false; }
      flowToken := true;
      return true;
    }

    method StartRequest()
      modifies this
      ensures View() == StartStream(old(View())) && flowToken == old(flowToken)
    {
      peerStreamWindow, hasStream := peerInitialWindow, true;
    }

    /** The frame reader working while the writer does not hold flowMu. */
    method Interfere(es: seq<Nudge>)
      modifies this
      ensures View() == ApplyAll(old(View()), es)
    {
      for i := 0 to |es|
        invariant ApplyAll(View(), es[i..]) == ApplyAll(old(View()), es)
      {
        match es[i] {
          case GotSetting(s) => HandleSetting(s);
          case GotUpdate(t, n) => var _ := HandleWindowUpdate(t, n);
        }
        assert es[i..][1..] == es[i + 1..];
      }
    }

    /** reserveWriteWindow. `env[i]` is what the reader did before the i-th time this loop took
        flowMu; the end of `env` stands for the timeout or the end of the connection. */
    method ReserveWriteWindow(want: nat, env: seq<seq<Nudge>>) returns (n: nat, used: nat)
      requires want > 0
      modifies this
      ensures used <= |env|
      ensures n > 0 ==> used > 0 && n == Usable(After(old(View()), env, used), want)
      ensures View() == Reserve(After(old(View()), env, used), n)
      ensures n == 0 ==> used == |env|
      ensures NothingUsable(old(View()), env, if n > 0 then used - 1 else used, want)
    {
      used := 0;
      assert env[..0] == [];
      while used < |env|
        invariant used <= |env|
        invariant View() == After(old(View()), env, used)
        invariant NothingUsable(old(View()), env, used, want)
      {
        Interfere(env[used]);
        FlatStep(old(View()), env, used);
        used := used + 1;
        var available := peerConnWindow;
        if peerStreamWindow < available { available := peerStreamWindow; }
        if peerMaxFrameSize < available { available := peerMaxFrameSize; }
        if want < available { available := want; }
        assert available == Usable(View(), want);
        if available > 0 {
          peerConnWindow := peerConnWindow - available;
          peerStreamWindow := peerStreamWindow - available;
          return available, used;
        }
        NothingMore(old(View()), env, used - 1, want);
      }
      n := 0;
    }

    /** writeData against any interference, on a connection that carries `writes` more frames: the
        frames are complete or a partial start, and the windows have moved by the credit received
        less the bytes sent and those reserved for a frame that could not be written. */
    method WriteData(p: seq<Byte>, end: bool, env: seq<seq<Nudge>>, writes: nat)
      returns (frames: seq<Chunk>, ok: bool, used: nat, lost: nat)
      requires hasStream
      modifies this
      ensures used <= |env| && |frames| <= writes
      ensures ok ==> Complete(p, end, frames) && lost == 0
      ensures !ok ==> (used == |env| || |frames| == writes) && (lost > 0 ==> |frames| == writes)
      ensures !ok ==> NoEnd(frames) && Sent(frames) <= p && (p != [] ==> Sent(frames) < p) && AllInLimits(frames)
      ensures Accounts(old(View()), View(), Flat(env[..used]), |Sent(frames)| + lost)
    {
      if p == [] {
        assert env[..0] == [];
        if writes == 0 { return [], false, 0, 0; }
        NextChunk([], end, [], [], 0, View());
        return [Chunk([], end, View())], true, 0, 0;
      }
      frames, ok, used, lost := WriteChunks(p, end, env, writes);
    }

    /** One reservation of the loop, on top of what has been accounted for since w0. */
    method ReserveNext(ghost w0: Windows, ghost spent: int, want: nat, env: seq<seq<Nudge>>, used: nat)
      returns (n: nat, next: nat)
      requires want > 0 && used <= |env| && hasStream && Accounts(w0, View(), Flat(env[..used]), spent)
      modifies this
      ensures hasStream && used <= next <= |env| && Accounts(w0, View(), Flat(env[..next]), spent + n)
      ensures n > 0 ==> n <= want && n <= View().maxFrame && View().conn >= 0 && View().stream >= 0
      ensures n == 0 ==> next == |env|
    {
      ghost var before := View();
      var more;
      n, more := ReserveWriteWindow(want, env[used..]);
      AccountStep(w0, before, env, used, more, spent, n);
      next := used + more;
    }

    /** The loop of writeData. */
    method WriteChunks(p: seq<Byte>, end: bool, env: seq<seq<Nudge>>, writes: nat)
      returns (frames: seq<Chunk>, ok: bool, used: nat, lost: nat)
      requires hasStream && p != []
      modifies this
      ensures used <= |env| && |frames| <= writes
      ensures ok ==> Complete(p, end, frames) && lost == 0
      ensures !ok ==> (used == |env| || |frames| == writes) && (lost > 0 ==> |frames| == writes)
      ensures !ok ==> NoEnd(frames) && Sent(frames) < p && AllInLimits(frames)
      ensures Accounts(old(View()), View(), Flat(env[..used]), |Sent(frames)| + lost)
    {
      used, frames, lost := 0, [], 0;
      ghost var w0 := View();
      assert env[..0] == [];
      var rest := p;
      while rest != []
        invariant used <= |env| && hasStream && |frames| <= writes
        invariant Progress(p, end, rest, frames)
        invariant Accounts(w0, View(), Flat(env[..used]), |Sent(frames)|)
      {
        var n, next := ReserveNext(w0, |Sent(frames)|, |rest|, env, used);
        used := next;
        PartialIsPrefix(p, rest, frames);
        if n == 0 { return frames, false, used, 0; }
        if |frames| == writes { return frames, false, used, n; }
        var c := Chunk(rest[..n], end && n == |rest|, View().(conn := View().conn + n, stream := View().stream + n));
        Proceeds(p, end, rest, frames, n, c);
        frames, rest := frames + [c], rest[n..];
      }
      ok := true;
    }
  }

  /** The windows after the first j interferences. */
  ghost function After(w: Windows, env: seq<seq<Nudge>>, j: nat): (r: Windows)
    requires j <= |env|
  {
    ApplyAll(w, Flat(env[..j]))
  }

  /** None of the first j turns of the loop found credit. */
  ghost predicate NothingUsable(w: Windows, env: seq<seq<Nudge>>, j: nat, want: nat)
    requires j <= |env|
  {
    forall i: nat :: 0 < i <= j ==> Usable(After(w, env, i), want) <= 0
  }

  lemma NothingMore(w: Windows, env: seq<seq<Nudge>>, j: nat, want: nat)
    requires j < |env| && NothingUsable(w, env, j, want) && Usable(After(w, env, j + 1), want) <= 0
    ensures NothingUsable(w, env, j + 1, want)
  {
  }

  ghost function Flat(env: seq<seq<Nudge>>): seq<Nudge> {
    if env == [] then [] else env[0] + Flat(env[1..])
  }

  lemma {:induction false} FlatAppend(a: seq<seq<Nudge>>, b: seq<seq<Nudge>>)
    ensures Flat(a + b) == Flat(a) + Flat(b)
  {
    if a == [] {
      assert a + b == b;
    } else {
      assert (a + b)[1..] == a[1..] + b;
      FlatAppend(a[1..], b);
    }
  }

  lemma {:induction false} ApplyAllAppend(w: Windows, a: seq<Nudge>, b: seq<Nudge>)
    ensures ApplyAll(w, a + b) == ApplyAll(ApplyAll(w, a), b)
    decreases a
  {
    if a == [] {
      assert a + b == b;
    } else {
      assert (a + b)[1..] == a[1..] + b;
      ApplyAllAppend(Apply(w, a[0]), a[1..], b);
    }
  }

  lemma {:induction false} CreditAppend(a: seq<Nudge>, b: seq<Nudge>, t: Target)
    ensures Credit(a + b, t) == Credit(a, t) + Credit(b, t)
  {
    if a == [] {
      assert a + b == b;
    } else {
      assert (a + b)[1..] == a[1..] + b;
      CreditAppend(a[1..], b, t);
    }
  }

  lemma FlatStep(w: Windows, env: seq<seq<Nudge>>, i: nat)
    requires i < |env|
    ensures After(w, env, i + 1) == ApplyAll(After(w, env, i), env[i])
  {
    assert env[..i + 1] == env[..i] + [env[i]];
    FlatAppend(env[..i], [env[i]]);
    assert Flat([env[i]]) == env[i] + Flat([]) == env[i];
    ApplyAllAppend(w, Flat(env[..i]), env[i]);
  }

  /** A reservation after some interference, on top of what has been accounted for. */
  lemma AccountStep(w0: Windows, w: Windows, env: seq<seq<Nudge>>, i: nat, k: nat, spent: int, n: nat)
    requires i + k <= |env| && w.live && Accounts(w0, w, Flat(env[..i]), spent)
    ensures var r := Reserve(After(w, env[i..], k), n); r.live && Accounts(w0, r, Flat(env[..i + k]), spent + n)
  {
    ApplyAllAccount(w, Flat(env[i..][..k]));
    CreditSplit(env, i, k);
  }

  lemma CreditSplit(env: seq<seq<Nudge>>, i: nat, k: nat)
    requires i + k <= |env|
    ensures forall t :: Credit(Flat(env[..i + k]), t) == Credit(Flat(env[..i]), t) + Credit(Flat(env[i..][..k]), t)
  {
    assert env[..i + k] == env[..i] + env[i..][..k];
    FlatAppend(env[..i], env[i..][..k]);
    forall t ensures Credit(Flat(env[..i + k]), t) == Credit(Flat(env[..i]), t) + Credit(Flat(env[i..][..k]), t) {
      CreditAppend(Flat(env[..i]), Flat(env[i..][..k]), t);
    }
  }
}
