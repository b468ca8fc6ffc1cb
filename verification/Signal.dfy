/** Signaling messages in their `TYPE connection_id data` text form (`protocol/signal.rs`). */
module Signals {
  import opened Std
  import opened Codec
  import opened Text

  datatype SignalType = Offer | Answer | Candidate | Error

  datatype Signal = Signal(kind: SignalType, connectionId: u64, data: string, networkId: string)

  function TypeName(t: SignalType): string {
    match t
    case Offer => "CONNECTREQUEST"
    case Answer => "CONNECTRESPONSE"
    case Candidate => "CANDIDATEADD"
    case Error => "CONNECTERROR"
  }

  function TypeFromName(s: string): Option<SignalType> {
    if s == "CONNECTREQUEST" then Some(Offer)
    else if s == "CONNECTRESPONSE" then Some(Answer)
    else if s == "CANDIDATEADD" then Some(Candidate)
    else if s == "CONNECTERROR" then Some(Error)
    else None
  }

  /** The network id is not part of the text. */
  function ToText(s: Signal): string {
    TypeName(s.kind) + [' '] + (Show(s.connectionId) + [' '] + s.data)
  }

  /** `splitn(3, ' ')` must give three parts; the third keeps its spaces. */
  function FromText(text: string, networkId: string): Option<Signal> {
    var (name, rest) :- SplitOnce(text, ' ');
    var (id, data) :- SplitOnce(rest, ' ');
    var kind :- TypeFromName(name);
    var connectionId :- ParseUnsigned(id, MAX_U64);
    Some(Signal(kind, connectionId, data, networkId))
  }

  lemma TypeNames(t: SignalType)
    ensures TypeFromName(TypeName(t)) == Some(t)
    ensures Free(TypeName(t), {' '})
  {
    match t
    case Offer =>
    case Answer =>
    case Candidate => assert "CANDIDATEADD"[1] != "CONNECTREQUEST"[1];
    case Error => assert |"CONNECTERROR"| != |"CONNECTREQUEST"|;
  }

  /** Parsing the text of a signal gives it back, under whatever network id the reader supplies. */
  lemma RoundTrip(s: Signal, networkId: string)
    ensures FromText(ToText(s), networkId) == Some(s.(networkId := networkId))
  {
    TypeNames(s.kind);
    var id := Show(s.connectionId);
    SplitOnceFirst(TypeName(s.kind), ' ', id + [' '] + s.data);
    SplitOnceFirst(id, ' ', s.data);
    ParseShow(s.connectionId, MAX_U64);
  }

  /** Each kind has its own first word. */
  lemma KindsOnTheWire(s: Signal)
    ensures "CONNECTREQUEST " <= ToText(s) <==> s.kind == Offer
    ensures "CONNECTRESPONSE " <= ToText(s) <==> s.kind == Answer
    ensures "CANDIDATEADD " <= ToText(s) <==> s.kind == Candidate
    ensures "CONNECTERROR " <= ToText(s) <==> s.kind == Error
  {
    hide Show;
    var text := ToText(s);
    match s.kind
    case Offer => assert text[..15] == "CONNECTREQUEST " && text[7] == 'R' && text[9] == 'Q';
    case Answer => assert text[..16] == "CONNECTRESPONSE " && text[7] == 'R' && text[9] == 'S';
    case Candidate => assert text[..13] == "CANDIDATEADD " && text[1] == 'A';
    case Error => assert text[..13] == "CONNECTERROR " && text[7] == 'E';
  }

  lemma NamesTypes(name: string)
    ensures TypeFromName(name).Some? ==> name == TypeName(TypeFromName(name).value)
  {
  }

  /** A text reads as a signal exactly when it is the word for its kind, its connection id in digits and its data, parted
      by single spaces. */
  lemma ReadsExactly(text: string, networkId: string, s: Signal)
    ensures FromText(text, networkId) == Some(s) <==>
              && s.networkId == networkId
              && exists id ::
                   && Free(id, {' '}) && ParseUnsigned(id, MAX_U64) == Some(s.connectionId)
                   && text == TypeName(s.kind) + [' '] + (id + [' '] + s.data)
  {
    hide ParseUnsigned, SplitOnce;
    TypeNames(s.kind);
    forall id | Free(id, {' '}) && text == TypeName(s.kind) + [' '] + (id + [' '] + s.data)
      ensures SplitOnce(text, ' ') == Some((TypeName(s.kind), id + [' '] + s.data))
      ensures SplitOnce(id + [' '] + s.data, ' ') == Some((id, s.data))
    {
      SplitOnceFirst(TypeName(s.kind), ' ', id + [' '] + s.data);
      SplitOnceFirst(id, ' ', s.data);
    }
    if FromText(text, networkId) == Some(s) {
      var (name, rest) := SplitOnce(text, ' ').value;
      var (id, data) := SplitOnce(rest, ' ').value;
      SplitOnceJoins(text, ' ');
      SplitOnceJoins(rest, ' ');
      NamesTypes(name);
      assert text == TypeName(s.kind) + [' '] + (id + [' '] + data);
    }
  }
}
