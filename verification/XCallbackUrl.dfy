/** Building and reading x-callback-url URLs (chrome/common/x_callback_url.cc). */
module XCallbackUrl {
  import opened Wrappers
  import opened UrlText

  const HOST := "x-callback-url"
  const SUCCESS := "x-success"
  const ERROR := "x-error"
  const CANCEL := "x-cancel"

  /** A standard URL has a host; the path of any other runs from its colon. An empty query stands
      for an absent one too. */
  datatype Gurl = Invalid | Gurl(standard: bool, host: string, path: string, query: string)

  /** Section 3.1 of RFC 3986. */
  predicate ValidScheme(s: string) {
    && s != "" && ('a' <= s[0] <= 'z' || 'A' <= s[0] <= 'Z')
    && forall i | 0 <= i < |s| ::
         'a' <= s[i] <= 'z' || 'A' <= s[i] <= 'Z' || '0' <= s[i] <= '9' || s[i] == '+' || s[i] == '-' || s[i] == '.'
  }

  function DropSlashes(s: string): string {
    if |s| >= 2 && s[..2] == "//" then s[2..] else s
  }

  /** The text before `c`, and the text after it. */
  function Cut(s: string, c: char): (string, string) {
    var i := Find(s, c);
    (s[..i], if i < |s| then s[i + 1..] else "")
  }

  /** Splits a URL; `standard` are the schemes whose URLs have a host. */
  function Parse(standard: set<string>, text: string): Gurl {
    var (scheme, rest) := Cut(text, ':');
    if ':' !in text || !ValidScheme(scheme) then Invalid
    else
      var (hierarchy, query) := Cut(Cut(rest, '#').0, '?');
      if scheme in standard then
        var authority := DropSlashes(hierarchy);
        var i := Find(authority, '/');
        Gurl.Gurl(true, authority[..i], authority[i..], query)
      else Gurl.Gurl(false, "", hierarchy, query)
  }

  /** The URL names the host; without one, the first segment of its path does. */
  predicate NamesHost(url: Gurl) {
    url.Gurl? && (if url.standard then url.host else Cut(DropSlashes(url.path), '/').0) == HOST
  }

  method IsXCallbackURL(url: Gurl) returns (recognised: bool)
    ensures recognised <==> NamesHost(url)
  {
    if url.Invalid? {
      return false;
    }
    if url.standard {
      return url.host == HOST;
    }
    var pathPiece := url.path;
    if |pathPiece| >= 2 && pathPiece[..2] == "//" {
      pathPiece := pathPiece[2..];
    }
    assert pathPiece == DropSlashes(url.path);
    var pos := Find(pathPiece, '/');
    if pos < |pathPiece| {
      pathPiece := pathPiece[..pos];
    }
    assert pathPiece == Cut(DropSlashes(url.path), '/').0;
    return pathPiece == HOST;
  }

  function WithParameter(kept: set<char>, url: Gurl, p: Pair): Gurl
    requires Bytes(p.0) && Bytes(p.1)
  {
    if url.Invalid? then url else url.(query := AppendQueryParameter(kept, url.query, p))
  }

  function Callback(name: string, url: Option<string>): seq<Pair> {
    if url.Some? then [(name, url.value)] else []
  }

  /** The callbacks that are valid URLs, by name. */
  function Callbacks(success: Option<string>, error: Option<string>, cancel: Option<string>): seq<Pair> {
    Callback(SUCCESS, success) + Callback(ERROR, error) + Callback(CANCEL, cancel)
  }

  predicate BytesOption(o: Option<string>) {
    o.Some? ==> Bytes(o.value)
  }

  /** The URL before anything is appended. */
  function BareUrl(standard: set<string>, scheme: string, action: string): Gurl {
    Parse(standard, scheme + "://" + HOST + "/" + action)
  }

  function WithParameters(kept: set<char>, url: Gurl, ps: seq<Pair>): Gurl
    requires AllBytes(ps)
  {
    if url.Invalid? then url else url.(query := AppendAll(kept, url.query, ps))
  }

  lemma WithOneMore(kept: set<char>, url: Gurl, ps: seq<Pair>, p: Pair)
    requires AllBytes(ps) && Bytes(p.0) && Bytes(p.1)
    ensures AllBytes(ps + [p])
    ensures WithParameter(kept, WithParameters(kept, url, ps), p) == WithParameters(kept, url, ps + [p])
  {
    assert (ps + [p])[..|ps|] == ps;
  }

  lemma BytesOfBoth(success: Option<string>, error: Option<string>, cancel: Option<string>, parameters: seq<Pair>)
    requires BytesOption(success) && BytesOption(error) && BytesOption(cancel) && AllBytes(parameters)
    ensures AllBytes(Callbacks(success, error, cancel) + parameters)
  {
    ReservedNamesAreBytes();
  }

  /** The URL that the builder makes of its arguments. */
  function BuiltUrl(
    standard: set<string>, kept: set<char>, scheme: string, action: string,
    success: Option<string>, error: Option<string>, cancel: Option<string>, parameters: seq<Pair>): Gurl
    requires BytesOption(success) && BytesOption(error) && BytesOption(cancel) && AllBytes(parameters)
  {
    BytesOfBoth(success, error, cancel, parameters);
    WithParameters(kept, BareUrl(standard, scheme, action), Callbacks(success, error, cancel) + parameters)
  }

  /** What the extractor reads in a URL. */
  function QueryParameters(url: Gurl): map<string, string>
    requires url.Gurl?
  {
    FirstWins(DecodedPairs(Pairs(url.query)))
  }

  /** A callback URL is None when it is not valid. `parameters` are the entries of a std::map in order. */
  method CreateXCallbackURLWithParameters(
    standard: set<string>, kept: set<char>, scheme: string, action: string,
    successUrl: Option<string>, errorUrl: Option<string>, cancelUrl: Option<string>, parameters: seq<Pair>)
    returns (url: Gurl)
    requires scheme != "" && AllBytes(parameters)
    requires BytesOption(successUrl) && BytesOption(errorUrl) && BytesOption(cancelUrl)
    ensures url == BuiltUrl(standard, kept, scheme, action, successUrl, errorUrl, cancelUrl, parameters)
  {
    var bare := BareUrl(standard, scheme, action);
    url := AppendCallbacks(kept, bare, successUrl, errorUrl, cancelUrl);
    url := AppendParameters(kept, bare, url, Callbacks(successUrl, errorUrl, cancelUrl), parameters);
  }

  lemma ReservedNamesAreBytes()
    ensures Bytes(SUCCESS) && Bytes(ERROR) && Bytes(CANCEL)
  {
  }

  /** Appends the valid callbacks, one after the other. */
  method AppendCallbacks(
    kept: set<char>, bare: Gurl, successUrl: Option<string>, errorUrl: Option<string>, cancelUrl: Option<string>)
    returns (url: Gurl)
    requires BytesOption(successUrl) && BytesOption(errorUrl) && BytesOption(cancelUrl)
    ensures AllBytes(Callbacks(successUrl, errorUrl, cancelUrl))
    ensures url == WithParameters(kept, bare, Callbacks(successUrl, errorUrl, cancelUrl))
  {
    ReservedNamesAreBytes();
    ghost var first := Callback(SUCCESS, successUrl);
    assert [] + first == first;
    url := AppendCallback(kept, bare, bare, [], SUCCESS, successUrl);
    url := AppendCallback(kept, bare, url, first, ERROR, errorUrl);
    url := AppendCallback(kept, bare, url, first + Callback(ERROR, errorUrl), CANCEL, cancelUrl);
  }

  /** Appends a callback to a URL that `done` have been appended to, when it is valid. */
  method AppendCallback(
    kept: set<char>, ghost bare: Gurl, url: Gurl, ghost done: seq<Pair>, name: string, callback: Option<string>)
    returns (result: Gurl)
    requires AllBytes(done) && Bytes(name) && BytesOption(callback) && url == WithParameters(kept, bare, done)
    ensures AllBytes(done + Callback(name, callback))
    ensures result == WithParameters(kept, bare, done + Callback(name, callback))
  {
    result := url;
    if callback.Some? {
      WithOneMore(kept, bare, done, (name, callback.value));
      result := WithParameter(kept, url, (name, callback.value));
    } else {
      assert done + [] == done;
    }
  }

  /** The loop over the parameters, on a URL that `done` have been appended to. */
  method AppendParameters(kept: set<char>, ghost bare: Gurl, url: Gurl, ghost done: seq<Pair>, parameters: seq<Pair>)
    returns (result: Gurl)
    requires AllBytes(done) && AllBytes(parameters) && url == WithParameters(kept, bare, done)
    ensures AllBytes(done + parameters) && result == WithParameters(kept, bare, done + parameters)
  {
    result := url;
    assert done + parameters[..0] == done;
    for i := 0 to |parameters|
      invariant AllBytes(done + parameters[..i])
      invariant result == WithParameters(kept, bare, done + parameters[..i])
    {
      assert parameters[i] in parameters;
      WithOneMore(kept, bare, done + parameters[..i], parameters[i]);
      assert done + parameters[..i + 1] == done + parameters[..i] + [parameters[i]];
      result := WithParameter(kept, result, parameters[i]);
    }
    assert parameters[..|parameters|] == parameters;
  }

  function DecodedPairs(ps: seq<Pair>): seq<Pair> {
    seq(|ps|, i requires 0 <= i < |ps| => (ps[i].0, Decode(ps[i].1)))
  }

  lemma InsertOneMore(ps: seq<Pair>, p: Pair)
    ensures FirstWins(DecodedPairs(ps + [p])) == InsertPair(FirstWins(DecodedPairs(ps)), (p.0, Decode(p.1)))
  {
    assert DecodedPairs(ps + [p]) == DecodedPairs(ps) + [(p.0, Decode(p.1))];
    assert (DecodedPairs(ps) + [(p.0, Decode(p.1))])[..|ps|] == DecodedPairs(ps);
  }

  /** `done` has been read off `whole` and inserted, `rest` is left. */
  predicate ReadSoFar(whole: string, done: seq<Pair>, rest: string, parameters: map<string, string>) {
    Pairs(whole) == done + Pairs(rest) && parameters == FirstWins(DecodedPairs(done))
  }

  lemma ReadOneMore(whole: string, done: seq<Pair>, rest: string, parameters: map<string, string>)
    requires rest != "" && ReadSoFar(whole, done, rest, parameters)
    ensures var p := SplitPair(FirstPair(rest));
            ReadSoFar(whole, done + [p], AfterPair(rest), InsertPair(parameters, (p.0, Decode(p.1))))
  {
    var p := SplitPair(FirstPair(rest));
    Associative(done, [p], Pairs(AfterPair(rest)));
    InsertOneMore(done, p);
  }

  /** Keys are taken as they stand, values decoded; of several entries with one key the first stays. */
  method ExtractQueryParametersFromXCallbackURL(url: Gurl) returns (parameters: map<string, string>)
    requires NamesHost(url)
    ensures parameters == QueryParameters(url)
  {
    parameters := map[];
    var query := url.query;
    ghost var done: seq<Pair> := [];
    assert done + Pairs(query) == Pairs(query);
    while query != ""
      invariant ReadSoFar(url.query, done, query, parameters)
      decreases |query|
    {
      ReadOneMore(url.query, done, query, parameters);
      var (key, value) := SplitPair(FirstPair(query));
      parameters := InsertPair(parameters, (key, Decode(value)));
      done := done + [(key, value)];
      query := AfterPair(query);
    }
    assert done + Pairs(query) == done;
  }

  // ---------------------------------------------------------------------------------------
  // Recognition
  // ---------------------------------------------------------------------------------------

  lemma CutAt(a: string, c: char, b: string)
    requires c !in a
    ensures Cut(a + [c] + b, c) == (a, b)
    ensures Cut(a, c) == (a, "")
  {
    var s := a + [c] + b;
    assert s[..|a|] == a && s[|a| + 1..] == b && a[..|a|] == a;
    FindUnique(s, c, |a|);
    FindUnique(a, c, |a|);
  }

  /** The path and query that an action turns into. */
  function ActionPath(action: string): string {
    Cut(Cut(action, '#').0, '?').0
  }

  function ActionQuery(action: string): string {
    Cut(Cut(action, '#').0, '?').1
  }

  lemma CutBehind(prefix: string, s: string, c: char)
    requires c !in prefix
    ensures Cut(prefix + s, c) == (prefix + Cut(s, c).0, Cut(s, c).1)
  {
    var i := Find(s, c);
    if i < |s| {
      assert prefix + s == prefix + s[..i] + [c] + s[i + 1..];
      CutAt(prefix + s[..i], c, s[i + 1..]);
    } else {
      assert s[..i] == s;
      CutAt(prefix + s, c, "");
    }
  }

  /** An action written out as path, query and fragment, where they have no separators of their own. */
  lemma ActionParts(path: string, query: string, fragment: string)
    requires '?' !in path && '#' !in path && '#' !in query
    ensures ActionPath(path) == path && ActionQuery(path) == ""
    ensures ActionPath(path + "#" + fragment) == path && ActionQuery(path + "#" + fragment) == ""
    ensures ActionPath(path + "?" + query) == path && ActionQuery(path + "?" + query) == query
    ensures ActionPath(path + "?" + query + "#" + fragment) == path
    ensures ActionQuery(path + "?" + query + "#" + fragment) == query
  {
    CutAt(path, '#', fragment);
    CutAt(path, '?', query);
    CutAt(path + "?" + query, '#', fragment);
  }

  /** Text behind a prefix without separators, split into path and query. */
  lemma CutBothBehind(prefix: string, action: string)
    requires '#' !in prefix && '?' !in prefix
    ensures Cut(Cut(prefix + action, '#').0, '?') == (prefix + ActionPath(action), ActionQuery(action))
  {
    CutBehind(prefix, action, '#');
    CutBehind(prefix, Cut(action, '#').0, '?');
  }

  lemma HostIsPlain()
    ensures var prefix := "//" + HOST + "/"; '#' !in prefix && '?' !in prefix
  {
  }

  lemma AuthorityPrinted(path: string)
    ensures var authority := DropSlashes("//" + HOST + "/" + path);
            var i := Find(authority, '/');
            authority[..i] == HOST && authority[i..] == "/" + path
  {
    var hierarchy, authority := "//" + HOST + "/" + path, HOST + "/" + path;
    assert hierarchy[..2] == "//" && hierarchy[2..] == authority;
    assert authority[..|HOST|] == HOST && authority[|HOST|..] == "/" + path;
    FindUnique(authority, '/', |HOST|);
  }

  /** What Parse makes of the text the builder prints, for a scheme without a colon. */
  lemma ParsePrinted(standard: set<string>, scheme: string, action: string)
    requires ':' !in scheme
    ensures BareUrl(standard, scheme, action) ==
            if !ValidScheme(scheme) then Invalid
            else if scheme in standard then Gurl.Gurl(true, HOST, "/" + ActionPath(action), ActionQuery(action))
            else Gurl.Gurl(false, "", "//" + HOST + "/" + ActionPath(action), ActionQuery(action))
  {
    var rest := "//" + HOST + "/" + action;
    var text := scheme + "://" + HOST + "/" + action;
    assert text == scheme + [':'] + rest;
    CutAt(scheme, ':', rest);
    HostIsPlain();
    CutBothBehind("//" + HOST + "/", action);
    AuthorityPrinted(ActionPath(action));
  }

  /** The host that a URL names, from the text behind the colon of its scheme. */
  function HostText(rest: string): string {
    Cut(DropSlashes(Cut(Cut(rest, '#').0, '?').0), '/').0
  }

  lemma NamesHostByText(standard: set<string>, scheme: string, rest: string, query: string)
    requires ':' !in scheme
    ensures var url := Parse(standard, scheme + ":" + rest);
            && (url.Gurl? <==> ValidScheme(scheme))
            && (url.Gurl? ==> (NamesHost(url.(query := query)) <==> HostText(rest) == HOST))
  {
    CutAt(scheme, ':', rest);
  }

  lemma CutWithin(s: string, t: string, c: char)
    requires c in s
    ensures Cut(s + t, c).0 == Cut(s, c).0
  {
    var i := Find(s, c);
    assert c in s[..|s|];
    assert (s + t)[..i] == s[..i];
    FindUnique(s + t, c, i);
  }

  /** Text behind a colon-and-slashes does not change the host. */
  lemma HostTextStops(rest: string, more: string)
    ensures HostText(rest + "://" + more) == HostText(rest + ":")
  {
    var long, short := rest + "://" + more, rest + ":";
    var tail := "//" + more;
    assert long == short + tail;
    if '#' in short {
      CutWithin(short, tail, '#');
    } else {
      CutBehind(short, tail, '#');
      CutBehind(short, "", '#');
      assert short + "" == short;
      HierarchyStops(rest, more);
    }
  }

  lemma HierarchyStops(rest: string, more: string)
    ensures var tail := Cut("//" + more, '#').0;
            Cut(DropSlashes(Cut(rest + ":" + tail, '?').0), '/').0 == Cut(DropSlashes(Cut(rest + ":", '?').0), '/').0
  {
    var short, tail := rest + ":", Cut("//" + more, '#').0;
    CutBehind("//", more, '#');
    if '?' in short {
      CutWithin(short, tail, '?');
    } else {
      CutBehind(short, tail, '?');
      CutBehind(short, "", '?');
      assert short + "" == short;
      CutBehind("//", Cut(more, '#').0, '?');
      SegmentStops(rest, Cut(Cut(more, '#').0, '?').0);
    }
  }

  lemma DropSlashesOfLonger(s: string, tail: string)
    requires |s| >= 2 || (|s| == 1 && s[0] != '/')
    ensures DropSlashes(s + tail) == DropSlashes(s) + tail
  {
    if |s| >= 2 {
      assert (s + tail)[..2] == s[..2] && (s + tail)[2..] == s[2..] + tail;
    } else {
      assert (s + tail)[0] == s[0];
    }
  }

  lemma SegmentOfLonger(s: string, more: string)
    ensures Cut(s + ("//" + more), '/').0 == Cut(s, '/').0
  {
    if '/' in s {
      CutWithin(s, "//" + more, '/');
    } else {
      CutAt(s, '/', "/" + more);
      assert s + ['/'] + ("/" + more) == s + ("//" + more);
    }
  }

  lemma SegmentStops(rest: string, more: string)
    ensures Cut(DropSlashes(rest + ":" + ("//" + more)), '/').0 == Cut(DropSlashes(rest + ":"), '/').0
  {
    DropSlashesOfLonger(rest + ":", "//" + more);
    SegmentOfLonger(DropSlashes(rest + ":"), more);
  }

  lemma ColonSchemeDecides(standard: set<string>, name: string, rest: string, more: string, query: string)
    requires ':' !in name
    ensures var url := Parse(standard, name + ":" + (rest + "://" + more));
            (url.Gurl? && NamesHost(url.(query := query))) <==> NamesHost(Parse(standard, name + ":" + (rest + ":")))
  {
    var short := Parse(standard, name + ":" + (rest + ":"));
    NamesHostByText(standard, name, rest + "://" + more, query);
    NamesHostByText(standard, name, rest + ":", if short.Gurl? then short.query else "");
    HostTextStops(rest, more);
  }

  lemma SplitAtColon(scheme: string) returns (name: string, rest: string)
    requires ':' in scheme
    ensures ':' !in name && scheme == name + ":" + rest
  {
    var i := Find(scheme, ':');
    assert scheme[..|scheme|] == scheme;
    name, rest := scheme[..i], scheme[i + 1..];
  }

  /** `text` is `first`, or `first` and then a slash and anything. */
  ghost predicate HasFirstSegment(text: string, first: string) {
    text == first || exists rest: string :: text == first + ['/'] + rest
  }

  lemma FirstSegmentCut(text: string, first: string)
    requires '/' !in first
    ensures Cut(text, '/').0 == first <==> HasFirstSegment(text, first)
  {
    var i := Find(text, '/');
    if text[..i] == first && i < |text| {
      assert text == first + ['/'] + text[i + 1..];
    }
    if text == first {
      CutAt(first, '/', "");
    } else if rest: string :| text == first + ['/'] + rest {
      CutAt(first, '/', rest);
    }
  }

  /** A text whose first segment is not empty does not begin with a slash. */
  lemma SlashesDropped(text: string, first: string)
    requires first != "" && first[0] != '/' && HasFirstSegment(text, first)
    ensures DropSlashes(text) == DropSlashes("//" + text) == text
  {
    assert text[0] == first[0];
    assert ("//" + text)[..2] == "//" && ("//" + text)[2..] == text;
  }

  lemma HostHasNoSlash()
    ensures '/' !in HOST && HOST != "" && HOST[0] != '/'
  {
  }

  /** The first segment of `path` is `first`, with two slashes before it or not. */
  ghost predicate LeadsTo(path: string, first: string) {
    HasFirstSegment(path, first) || exists text :: path == "//" + text && HasFirstSegment(text, first)
  }

  lemma LeadsToExactlyWhen(path: string, first: string)
    requires '/' !in first && first != "" && first[0] != '/'
    ensures Cut(DropSlashes(path), '/').0 == first <==> LeadsTo(path, first)
  {
    FirstSegmentCut(DropSlashes(path), first);
    if HasFirstSegment(DropSlashes(path), first) {
      assert path == DropSlashes(path) || path == "//" + DropSlashes(path);
    }
    if HasFirstSegment(path, first) {
      SlashesDropped(path, first);
    } else if text :| path == "//" + text && HasFirstSegment(text, first) {
      SlashesDropped(text, first);
    }
  }

  /** Of URLs without a host, those are recognised whose path leads to the reserved name. */
  lemma RecognisedExactlyWhen(host: string, path: string, query: string)
    ensures NamesHost(Gurl.Gurl(false, host, path, query)) <==> LeadsTo(path, HOST)
  {
    HostHasNoSlash();
    LeadsToExactlyWhen(path, HOST);
  }

  /** For every action, the callbacks and the parameters being in the query: what is built names the
      host exactly when the scheme text is a URL scheme, or has a colon and, followed by another,
      names the host already. */
  lemma BuiltUrlIsRecognised(standard: set<string>, scheme: string, action: string, query: string)
    ensures var url := BareUrl(standard, scheme, action);
            (url.Gurl? && NamesHost(url.(query := query))) <==>
            if ':' in scheme then NamesHost(Parse(standard, scheme + ":")) else ValidScheme(scheme)
  {
    if ':' in scheme {
      var name, rest := SplitAtColon(scheme);
      var more := HOST + "/" + action;
      assert scheme + "://" + HOST + "/" + action == name + ":" + (rest + "://" + more);
      assert scheme + ":" == name + ":" + (rest + ":");
      ColonSchemeDecides(standard, name, rest, more, query);
    } else {
      ParsePrinted(standard, scheme, action);
      AuthorityPrinted(ActionPath(action));
    }
  }

  // ---------------------------------------------------------------------------------------
  // Round trip
  // ---------------------------------------------------------------------------------------

  /** The parameters overlaid by the valid callbacks. */
  function Overlaid(callbacks: seq<Pair>, parameters: seq<Pair>): map<string, string> {
    FirstWins(parameters) + FirstWins(callbacks)
  }

  /** What the extractor finds in the URL that the builder makes of these arguments, by the
      contracts of the two methods. */
  function Extracted(standard: set<string>, kept: set<char>, scheme: string, action: string, ps: seq<Pair>)
    : map<string, string>
    requires AllBytes(ps) && BareUrl(standard, scheme, action).Gurl?
  {
    QueryParameters(WithParameters(kept, BareUrl(standard, scheme, action), ps))
  }

  lemma SchemeHasNoColon(scheme: string)
    requires ValidScheme(scheme)
    ensures ':' !in scheme
  {
  }

  /** The pairs the action itself brings, read with more following or not. */
  function ActionPairs(action: string, followed: bool): seq<Pair> {
    var q := ActionQuery(action);
    DecodedPairs(if q == "" then [] else if followed then PairsBefore(q) else Pairs(q))
  }

  predicate ValuesPrintable(ps: seq<Pair>) {
    forall p | p in ps :: Printable(p.1)
  }

  /** Names encoded, values as they were. */
  function NamesEncoded(kept: set<char>, ps: seq<Pair>): seq<Pair>
    requires AllBytes(ps)
  {
    seq(|ps|, i requires 0 <= i < |ps| => assert ps[i] in ps; (Encode(kept, ps[i].0), ps[i].1))
  }

  lemma DecodedEncodedPairs(kept: set<char>, ps: seq<Pair>)
    requires Encoder(kept) && AllBytes(ps) && ValuesPrintable(ps)
    ensures DecodedPairs(EncodedPairs(kept, ps)) == NamesEncoded(kept, ps)
  {
    forall i | 0 <= i < |ps| ensures DecodedPairs(EncodedPairs(kept, ps))[i] == NamesEncoded(kept, ps)[i] {
      assert ps[i] in ps;
      DecodeEncode(kept, ps[i].1);
    }
  }

  lemma DecodedConcat(a: seq<Pair>, b: seq<Pair>)
    ensures DecodedPairs(a + b) == DecodedPairs(a) + DecodedPairs(b)
  {
  }

  /** The query of the built URL, read back. */
  lemma ReadBack(kept: set<char>, action: string, ps: seq<Pair>)
    requires Encoder(kept) && AllBytes(ps) && ValuesPrintable(ps)
    ensures DecodedPairs(Pairs(AppendAll(kept, ActionQuery(action), ps))) ==
            ActionPairs(action, ps != []) + NamesEncoded(kept, ps)
  {
    var q := ActionQuery(action);
    if ps == [] {
      assert NamesEncoded(kept, ps) == [];
      assert ActionPairs(action, false) == DecodedPairs(Pairs(q));
      assert ActionPairs(action, false) + [] == ActionPairs(action, false);
    } else {
      PairsOfAppended(kept, q, ps);
      DecodedEncodedPairs(kept, ps);
      DecodedConcat(if q == "" then [] else PairsBefore(q), EncodedPairs(kept, ps));
    }
  }

  /** For every action: first what the action brings, then the callbacks and parameters with their
      names encoded, and the first entry of a name wins. */
  lemma ExtractedFromBuilt(standard: set<string>, kept: set<char>, scheme: string, action: string, ps: seq<Pair>)
    requires Encoder(kept) && AllBytes(ps) && ValuesPrintable(ps) && ValidScheme(scheme)
    ensures BareUrl(standard, scheme, action).Gurl?
    ensures Extracted(standard, kept, scheme, action, ps) ==
            FirstWins(ActionPairs(action, ps != []) + NamesEncoded(kept, ps))
  {
    SchemeHasNoColon(scheme);
    ParsePrinted(standard, scheme, action);
    ReadBack(kept, action, ps);
  }

  predicate NamesKept(kept: set<char>, ps: seq<Pair>) {
    forall i | 0 <= i < |ps| :: AllKept(kept, ps[i].0)
  }

  lemma NamesKeptStay(kept: set<char>, ps: seq<Pair>)
    requires Encoder(kept) && AllBytes(ps) && NamesKept(kept, ps)
    ensures NamesEncoded(kept, ps) == ps
  {
    forall i | 0 <= i < |ps| ensures NamesEncoded(kept, ps)[i] == ps[i] {
      assert ps[i] in ps;
      EncodeFixed(kept, ps[i].0);
    }
  }

  lemma CallbackNamesKept(kept: set<char>, success: Option<string>, error: Option<string>, cancel: Option<string>)
    requires Encoder(kept)
    ensures NamesKept(kept, Callbacks(success, error, cancel))
  {
  }

  /** Maps that differ only in what one gained on the left are the same when that agrees. */
  lemma LeftAgrees(m: map<string, string>, n: map<string, string>)
    ensures n + m == n <==> forall k | k in m :: k in n && n[k] == m[k]
  {
    if n + m == n {
      forall k | k in m ensures k in n && n[k] == m[k] {
        assert k in n + m && (n + m)[k] == m[k];
      }
    }
  }

  /** What the action brings by itself agrees with what was asked for. */
  predicate OwnPairsAgree(action: string, cs: seq<Pair>, parameters: seq<Pair>) {
    var own := FirstWins(ActionPairs(action, cs + parameters != []));
    forall k | k in own :: k in Overlaid(cs, parameters) && Overlaid(cs, parameters)[k] == own[k]
  }

  /** With names that need no encoding, the action's own pairs come over the rest. */
  lemma ReadBackWithNamesKept(kept: set<char>, action: string, cs: seq<Pair>, parameters: seq<Pair>)
    requires Encoder(kept) && AllBytes(cs + parameters) && NamesKept(kept, cs + parameters)
    ensures var own := ActionPairs(action, cs + parameters != []);
            && FirstWins(own + NamesEncoded(kept, cs + parameters)) == Overlaid(cs, parameters) + FirstWins(own)
            && (FirstWins(own + NamesEncoded(kept, cs + parameters)) == Overlaid(cs, parameters) <==>
                OwnPairsAgree(action, cs, parameters))
  {
    var own := ActionPairs(action, cs + parameters != []);
    NamesKeptStay(kept, cs + parameters);
    FirstWinsConcat(own, cs + parameters);
    FirstWinsConcat(cs, parameters);
    LeftAgrees(FirstWins(own), Overlaid(cs, parameters));
  }

  function Names(ps: seq<Pair>): set<string> {
    set p | p in ps :: p.0
  }

  lemma FirstWinsNames(ps: seq<Pair>)
    ensures FirstWins(ps).Keys == Names(ps)
  {
    forall k ensures k in FirstWins(ps) <==> k in Names(ps) { FirstWinsKeys(ps, k); }
  }

  /** When encoding leads from each of these names to one of them, it changes none: a changed name
      leads to a heavier one that would change too, and so on, and no name is that heavy. */
  lemma {:induction false} NoNameChanges(kept: set<char>, names: set<string>, bound: nat, name: string)
    requires Encoder(kept) && name in names
    requires forall n | n in names :: Bytes(n) && Weight(n) <= bound && Encode(kept, n) in names
    ensures AllKept(kept, name)
    decreases bound - Weight(name)
  {
    if !AllKept(kept, name) {
      EncodeFixed(kept, name);
      EncodeNeverSettles(kept, name);
      NoNameChanges(kept, names, bound, Encode(kept, name));
    }
  }

  lemma {:induction false} HeaviestName(ps: seq<Pair>) returns (bound: nat)
    ensures forall p | p in ps :: Weight(p.0) <= bound
  {
    if ps == [] {
      bound := 0;
    } else {
      var before, p := ps[..|ps| - 1], ps[|ps| - 1];
      bound := HeaviestName(before);
      bound := bound + Weight(p.0);
      assert ps == before + [p];
    }
  }

  lemma EncodedNames(kept: set<char>, ps: seq<Pair>, p: Pair)
    requires AllBytes(ps) && p in ps
    ensures Encode(kept, p.0) in Names(NamesEncoded(kept, ps))
  {
    var i :| 0 <= i < |ps| && ps[i] == p;
    assert NamesEncoded(kept, ps)[i] in NamesEncoded(kept, ps);
  }

  /** Reading back the names that were asked for and no others takes names that are kept. */
  lemma ReadBackNeedsNamesKept(kept: set<char>, own: seq<Pair>, ps: seq<Pair>)
    requires Encoder(kept) && AllBytes(ps)
    requires FirstWins(own + NamesEncoded(kept, ps)) == FirstWins(ps)
    ensures NamesKept(kept, ps)
  {
    var e := NamesEncoded(kept, ps);
    FirstWinsNames(ps);
    FirstWinsNames(own + e);
    var bound := HeaviestName(ps);
    forall n | n in Names(ps) ensures Bytes(n) && Weight(n) <= bound && Encode(kept, n) in Names(ps) {
      var p :| p in ps && p.0 == n;
      EncodedNames(kept, ps, p);
      var q :| q in e && q.0 == Encode(kept, n);
      assert q in own + e;
    }
    forall i | 0 <= i < |ps| ensures AllKept(kept, ps[i].0) {
      assert ps[i] in ps;
      NoNameChanges(kept, Names(ps), bound, ps[i].0);
    }
  }

  lemma NamesKeptOfBoth(
    kept: set<char>, success: Option<string>, error: Option<string>, cancel: Option<string>, parameters: seq<Pair>)
    requires Encoder(kept)
    ensures var cs := Callbacks(success, error, cancel);
            NamesKept(kept, cs + parameters) <==> NamesKept(kept, parameters)
  {
    var cs := Callbacks(success, error, cancel);
    CallbackNamesKept(kept, success, error, cancel);
    if NamesKept(kept, cs + parameters) {
      forall i | 0 <= i < |parameters| ensures AllKept(kept, parameters[i].0) {
        assert (cs + parameters)[|cs| + i] == parameters[i];
      }
    }
  }

  /** For every action and all names: what comes back is the parameters overlaid by the valid
      callbacks exactly when every name consists of characters that the encoder keeps, and what the
      action brings by itself agrees. */
  lemma RoundTripExactlyWhen(
    standard: set<string>, kept: set<char>, scheme: string, action: string,
    success: Option<string>, error: Option<string>, cancel: Option<string>, parameters: seq<Pair>)
    requires Encoder(kept) && ValidScheme(scheme)
    requires AllBytes(Callbacks(success, error, cancel) + parameters)
    requires ValuesPrintable(Callbacks(success, error, cancel) + parameters)
    ensures BareUrl(standard, scheme, action).Gurl?
    ensures var cs := Callbacks(success, error, cancel);
            Extracted(standard, kept, scheme, action, cs + parameters) == Overlaid(cs, parameters) <==>
            NamesKept(kept, parameters) && OwnPairsAgree(action, cs, parameters)
  {
    var cs := Callbacks(success, error, cancel);
    var own := ActionPairs(action, cs + parameters != []);
    ExtractedFromBuilt(standard, kept, scheme, action, cs + parameters);
    NamesKeptOfBoth(kept, success, error, cancel, parameters);
    if NamesKept(kept, parameters) {
      ReadBackWithNamesKept(kept, action, cs, parameters);
    } else if FirstWins(own + NamesEncoded(kept, cs + parameters)) == Overlaid(cs, parameters) {
      FirstWinsConcat(cs, parameters);
      ReadBackNeedsNamesKept(kept, own, cs + parameters);
    }
  }

  /** So with names that need no encoding it is down to the action. */
  lemma RoundTripForAnyAction(
    standard: set<string>, kept: set<char>, scheme: string, action: string,
    success: Option<string>, error: Option<string>, cancel: Option<string>, parameters: seq<Pair>)
    requires Encoder(kept) && ValidScheme(scheme) && NamesKept(kept, parameters)
    requires AllBytes(Callbacks(success, error, cancel) + parameters)
    requires ValuesPrintable(Callbacks(success, error, cancel) + parameters)
    ensures BareUrl(standard, scheme, action).Gurl?
    ensures var cs := Callbacks(success, error, cancel);
            Extracted(standard, kept, scheme, action, cs + parameters) == Overlaid(cs, parameters) <==>
            OwnPairsAgree(action, cs, parameters)
  {
    RoundTripExactlyWhen(standard, kept, scheme, action, success, error, cancel, parameters);
  }

  /** And with an action that brings no query it is down to the names. */
  lemma RoundTripExactlyWhenNamesKept(
    standard: set<string>, kept: set<char>, scheme: string, action: string,
    success: Option<string>, error: Option<string>, cancel: Option<string>, parameters: seq<Pair>)
    requires Encoder(kept) && ValidScheme(scheme) && ActionQuery(action) == ""
    requires AllBytes(Callbacks(success, error, cancel) + parameters)
    requires ValuesPrintable(Callbacks(success, error, cancel) + parameters)
    ensures BareUrl(standard, scheme, action).Gurl?
    ensures var cs := Callbacks(success, error, cancel);
            Extracted(standard, kept, scheme, action, cs + parameters) == Overlaid(cs, parameters) <==>
            NamesKept(kept, parameters)
  {
    RoundTripExactlyWhen(standard, kept, scheme, action, success, error, cancel, parameters);
    assert ActionPairs(action, Callbacks(success, error, cancel) + parameters != []) == [];
  }

  // ---------------------------------------------------------------------------------------
  // Which callback ends up under which name
  // ---------------------------------------------------------------------------------------

  lemma FirstWinsOne(name: string, callback: Option<string>)
    ensures FirstWins(Callback(name, callback)) == Entry(name, callback)
  {
    if callback.Some? { assert [(name, callback.value)][..0] == []; }
  }

  lemma ReservedNames()
    ensures SUCCESS == "x-success" && ERROR == "x-error" && CANCEL == "x-cancel"
    ensures SUCCESS != ERROR && SUCCESS != CANCEL && ERROR != CANCEL
  {
  }

  function Entry(name: string, callback: Option<string>): map<string, string> {
    if callback.Some? then map[name := callback.value] else map[]
  }

  lemma CallbackEntries(success: Option<string>, error: Option<string>, cancel: Option<string>)
    ensures FirstWins(Callbacks(success, error, cancel)) ==
            Entry("x-cancel", cancel) + (Entry("x-error", error) + Entry("x-success", success))
  {
    var a, b, c := Callback(SUCCESS, success), Callback(ERROR, error), Callback(CANCEL, cancel);
    FirstWinsConcat(a + b, c);
    FirstWinsConcat(a, b);
    FirstWinsOne(SUCCESS, success);
    FirstWinsOne(ERROR, error);
    FirstWinsOne(CANCEL, cancel);
  }

  lemma EntriesByName(
    x: string, y: string, z: string, a: Option<string>, b: Option<string>, c: Option<string>, k: string)
    requires x != y && x != z && y != z
    ensures var m := Entry(z, c) + (Entry(y, b) + Entry(x, a));
            && (k == x ==> (k in m <==> a.Some?) && (k in m ==> m[k] == a.value))
            && (k == y ==> (k in m <==> b.Some?) && (k in m ==> m[k] == b.value))
            && (k == z ==> (k in m <==> c.Some?) && (k in m ==> m[k] == c.value))
            && (k != x && k != y && k != z ==> k !in m)
  {
  }

  /** The reserved entries, name by name. */
  lemma CallbacksByName(success: Option<string>, error: Option<string>, cancel: Option<string>, k: string)
    ensures var m := FirstWins(Callbacks(success, error, cancel));
            && (k == "x-success" ==> (k in m <==> success.Some?) && (k in m ==> m[k] == success.value))
            && (k == "x-error" ==> (k in m <==> error.Some?) && (k in m ==> m[k] == error.value))
            && (k == "x-cancel" ==> (k in m <==> cancel.Some?) && (k in m ==> m[k] == cancel.value))
            && (k != "x-success" && k != "x-error" && k != "x-cancel" ==> k !in m)
  {
    CallbackEntries(success, error, cancel);
    ReservedNames();
    EntriesByName("x-success", "x-error", "x-cancel", success, error, cancel, k);
  }

  predicate PrintableOption(o: Option<string>) {
    o.Some? ==> Printable(o.value)
  }

  lemma PrintableAreBytes(s: string)
    requires Printable(s)
    ensures Bytes(s)
  {
  }

  /** What a name maps to: its callback if it is a reserved one and the callback is valid, and else the
      parameter of that name. */
  predicate MapsTo(m: map<string, string>, k: string, callback: Option<string>, parameters: seq<Pair>) {
    if callback.Some? then k in m && m[k] == callback.value
    else MapsToParameter(m, k, parameters)
  }

  predicate MapsToParameter(m: map<string, string>, k: string, parameters: seq<Pair>) {
    && (k in m <==> exists p :: p in parameters && p.0 == k)
    && (forall p | p in parameters && p.0 == k :: k in m && m[k] == p.1)
  }

  /** With an action that brings no query, and the parameters of a std::map with names that are kept:
      in the URL that is built, each name maps to what was asked for under that name. */
  lemma EveryNameMapsToItsOwn(
    standard: set<string>, kept: set<char>, scheme: string, action: string,
    success: Option<string>, error: Option<string>, cancel: Option<string>, parameters: seq<Pair>, k: string)
    requires Encoder(kept) && ValidScheme(scheme) && ActionQuery(action) == ""
    requires PrintableOption(success) && PrintableOption(error) && PrintableOption(cancel)
    requires AllBytes(parameters) && ValuesPrintable(parameters)
    requires NamesKept(kept, parameters) && DistinctNames(parameters)
    ensures var url := BuiltUrl(standard, kept, scheme, action, success, error, cancel, parameters);
            && url.Gurl?
            && (if k == "x-success" then MapsTo(QueryParameters(url), k, success, parameters)
                else if k == "x-error" then MapsTo(QueryParameters(url), k, error, parameters)
                else if k == "x-cancel" then MapsTo(QueryParameters(url), k, cancel, parameters)
                else MapsToParameter(QueryParameters(url), k, parameters))
  {
    BytesOfBoth(success, error, cancel, parameters);
    RoundTripExactlyWhenNamesKept(standard, kept, scheme, action, success, error, cancel, parameters);
    CallbacksByName(success, error, cancel, k);
    FirstWinsKeys(parameters, k);
    forall p | p in parameters ensures p.0 in FirstWins(parameters) && FirstWins(parameters)[p.0] == p.1 {
      FirstWinsDistinct(parameters, p);
    }
  }

  lemma OnlyQueryChanges(kept: set<char>, url: Gurl, ps: seq<Pair>)
    requires AllBytes(ps) && url.Gurl?
    ensures var u := WithParameters(kept, url, ps);
            u.Gurl? && u.standard == url.standard && u.host == url.host && u.path == url.path
  {
  }

  /** The built URL goes to the reserved host, and to the action's path there. */
  lemma BuiltUrlGoesToHost(
    standard: set<string>, kept: set<char>, scheme: string, action: string,
    success: Option<string>, error: Option<string>, cancel: Option<string>, parameters: seq<Pair>)
    requires ValidScheme(scheme)
    requires BytesOption(success) && BytesOption(error) && BytesOption(cancel) && AllBytes(parameters)
    ensures var url := BuiltUrl(standard, kept, scheme, action, success, error, cancel, parameters);
            && url.Gurl? && (url.standard <==> scheme in standard)
            && (url.standard ==> url.host == "x-callback-url" && url.path == "/" + ActionPath(action))
            && (!url.standard ==> url.path == "//" + "x-callback-url" + "/" + ActionPath(action))
  {
    var bare := BareUrl(standard, scheme, action);
    assert bare.Gurl? && (bare.standard <==> scheme in standard)
           && (bare.standard ==> bare.host == HOST && bare.path == "/" + ActionPath(action))
           && (!bare.standard ==> bare.path == "//" + HOST + "/" + ActionPath(action)) by {
      SchemeHasNoColon(scheme);
      ParsePrinted(standard, scheme, action);
    }
    BytesOfBoth(success, error, cancel, parameters);
    OnlyQueryChanges(kept, bare, Callbacks(success, error, cancel) + parameters);
  }
}
