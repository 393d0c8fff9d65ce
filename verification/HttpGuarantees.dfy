/**
 What the in-place parser promises its callers: it accepts what a message is said to be
 without a parser, and gives back a request that was printed - however the bytes were
 cut into reads.
 */
module HttpGuarantees {
  import opened Bytes
  import opened HttpFraming
  import opened HttpLines
  import opened HttpSpec
  import opened HttpMemory
  import opened HttpMessages
  import opened HttpRefinement
  import opened HttpRoundTrip

  // The bytes start with a well-formed message without a body.
  ghost predicate StartsWithRequest(s: string) {
    exists m: Message, path, rest ::
      s == Joined(m.Lines()) + rest && WellFormed(m, path) && ContentLength(m.headers) == 0
  }

  lemma AcceptsOnStream(s: string)
    ensures Process(ParseText, Initial(), s).0 == GetRequest <==> StartsWithRequest(s)
  {
    hide ParseText, WellFormed, ContentLength, Process;
    DecidesIffWellFormed(s);
    if Process(ParseText, Initial(), s).0 == GetRequest {
      var m: Message, path, rest :| s == Joined(m.Lines()) + rest && WellFormed(m, path);
      MessageDecided(m, path, rest);
    }
    if StartsWithRequest(s) {
      var m: Message, path, rest :|
        s == Joined(m.Lines()) + rest && WellFormed(m, path) && ContentLength(m.headers) == 0;
      MessageDecided(m, path, rest);
    }
  }

  lemma InPlaceIsProcess(mem: string, chunks: seq<string>)
    requires chunks != [] && |Concat(chunks)| < |mem|
    ensures Stands(FeedMemory(Fresh(mem), chunks), Process(ParseText, Initial(), Concat(chunks)))
  {
    hide ParseText, Process, FeedMemory, Stands;
    InPlaceChunkIndependence(mem, chunks, chunks);
  }

  // GET_REQUEST is reached exactly when the bytes read so far start with a well-formed message
  // without a body.
  lemma InPlaceAccepts(mem: string, chunks: seq<string>)
    requires chunks != [] && |Concat(chunks)| < |mem|
    ensures FeedMemory(Fresh(mem), chunks).0 == GetRequest <==> StartsWithRequest(Concat(chunks))
  {
    hide ParseText, Process, FeedMemory, StartsWithRequest;
    InPlaceIsProcess(mem, chunks);
    AcceptsOnStream(Concat(chunks));
  }

  // A printed request, in whatever pieces it arrives and whatever follows it, leaves m_url and
  // m_host at its path and its host, and m_linger and m_content_length as they were printed; the
  // verdict waits for a body exactly when one was announced.
  lemma InPlaceRoundTrip(mem: string, chunks: seq<string>, path: string, authority: Option<string>, host: string,
                         keepAlive: bool, length: Option<nat>, rest: string)
    requires path != "" && path[0] == '/' && NoBlank(path) && Plain(path)
    requires authority.Some? ==> NoBlank(authority.value) && Plain(authority.value) && '/' !in authority.value
    requires Plain(host) && (host == "" || !IsBlank(host[0]))
    requires length.Some? ==> length.value <= 2147483647
    requires chunks != [] && Concat(chunks) == Print(path, authority, host, keepAlive, length) + rest
    requires |Concat(chunks)| < |mem|
    ensures var (verdict, r) := FeedMemory(Fresh(mem), chunks);
            var n := if length.Some? then length.value else 0;
            && verdict == (if n == 0 then GetRequest else BodyPending) && r.Pointer(r.url) && r.Pointer(r.host)
            && r.Text(r.url) == Some(path) && r.Text(r.host) == Some(host) && r.linger == keepAlive && r.length == n
  {
    hide ParseText, Process, FeedMemory, Print, CString;
    InPlaceIsProcess(mem, chunks);
    RoundTrip(path, authority, host, keepAlive, length, rest);
  }
}
