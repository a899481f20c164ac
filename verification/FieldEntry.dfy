/** Entering a field: what a complete header does, whatever part of the payload is at hand. */
module FieldEntry {
  import opened Words
  import opened Errors
  import opened Rlp
  import opened StreamModel

  lemma FeedEnds(m: Machine, s: bytes, typed: bool)
    ensures m.field == TxDone ==> Feed(m, s, typed) == (m, Finished)
    ensures m.field != TxDone && s == [] ==> Feed(m, s, typed) == (m, Processing)
  {
  }

  lemma BodyProgress(m: Machine, rest: bytes, typed: bool)
    requires Waiting(m) && m.processing && rest != []
    ensures Taken(m, rest) > 0
    ensures var m' := Proxy(m, rest, typed).0; m'.field == m.field || m'.field.Left() < m.field.Left()
  {
  }

  /** Entering a field with the whole rest of the chunk at hand is entering it with its first byte, if that is
      self-encoded, and then feeding the rest. */
  lemma EnterIsProxy(m: Machine, b: uint8, d: Decoded, rest: bytes, typed: bool)
    requires HeaderRead(m, b) && DecodeLength(m.header) == Ok(Some(d))
    ensures var began, avail := Begin(m, d), ReadAgain(d, b) + rest;
            var (m', status) := Proxy(began, avail, typed);
            if status == Fault then Continued(Enter(m, b, typed), rest, typed) == (m', Fault)
            else
              Waiting(m')
              && (m'.field == m.field || m'.field.Left() < m.field.Left())
              && (d.offset == 0 ==> m'.field != m.field)
              && Continued(Enter(m, b, typed), rest, typed)
                 == Feed(m', if m.field == TxEnvelope then avail else avail[Taken(began, avail)..], typed)
  {
    HeaderDecoded(m.header);
    EnterUnfolds(m, b, d, typed);
    var began, first := Begin(m, d), ReadAgain(d, b);
    hide Feed, Enter, DecodeLength, LengthOfLength, StringField, Proxy, Waiting, Taken, Field.Left, Field.Next;
    if m.field == TxEnvelope {
      EnterEnvelope(began, first, rest, typed);
    } else {
      EnterString(began, first, rest, typed);
    }
  }

  lemma EnterUnfolds(m: Machine, b: uint8, d: Decoded, typed: bool)
    requires DecodeLength(m.header) == Ok(Some(d))
    ensures Enter(m, b, typed) == Proxy(Begin(m, d), ReadAgain(d, b), typed)
  {
  }

  lemma EnterEnvelope(began: Machine, first: bytes, rest: bytes, typed: bool)
    requires began.field == TxEnvelope && began.tx.Sized() && began.header == []
    requires if began.single then !began.isList else first == []
    ensures var (m', status) := Proxy(began, first + rest, typed);
            status == Proxy(began, first, typed).1 && m' == Proxy(began, first, typed).0 && status != Finished
            && (status == Processing ==>
                  Waiting(m') && first + rest == rest && m'.field.Left() < began.field.Left())
  {
    if first == [] {
      assert first + rest == rest;
    }
  }

  lemma HeaderDecoded(header: bytes)
    requires 1 <= |header| <= 5 && LengthOfLength(header[0]) <= 4 && |header| == 1 + LengthOfLength(header[0])
    ensures var decoded := DecodeLength(header);
            decoded.Ok? && decoded.value.Some?
            && (decoded.value.value.offset == 0 ==> decoded.value.value.fieldLength == 1 && !decoded.value.value.isList)
  {
    HeaderDetection(header);
  }

  lemma ProxyIsString(m: Machine, avail: bytes, typed: bool)
    requires m.field.IsString()
    ensures Proxy(m, avail, typed) == StringField(Flagged(m), avail) && Taken(Flagged(m), avail) == Taken(m, avail)
    ensures Flagged(Flagged(m)) == Flagged(m)
  {
  }

  lemma FieldMoves(m: Machine, avail: bytes)
    ensures var (m', status) := StringField(m, avail);
            if status == Fault then m.isList || !m.field.Admits(m.length)
            else status == Processing && !m.isList && m.field.Admits(m.length)
                 && m'.field == if m.pos + Taken(m, avail) == m.length then m.field.Next() else m.field
  {
  }

  lemma EnterString(began: Machine, first: bytes, rest: bytes, typed: bool)
    requires began.processing && began.header == [] && began.pos == 0 && began.tx.Sized() && began.field.IsString()
    requires if began.single then began.length == 1 && |first| == 1 else first == []
    ensures var (m', status) := Proxy(began, first + rest, typed);
            if status == Fault then Proxy(began, first, typed) == (m', Fault)
            else Waiting(m') && (m'.field == began.field || m'.field.Left() < began.field.Left())
                 && (began.single ==> m'.field != began.field)
                 && Proxy(began, first, typed).1 == Processing
                 && Feed(Proxy(began, first, typed).0, rest, typed)
                    == Feed(m', (first + rest)[Taken(began, first + rest)..], typed)
  {
    var avail := first + rest;
    NextIsCloser(began.field);
    hide Field.Left, Field.Next;
    ProxyIsString(began, avail, typed);
    ProxyIsString(began, first, typed);
    FieldMoves(Flagged(began), avail);
    FieldMoves(Flagged(began), first);
    if began.isList || !began.field.Admits(began.length) {
      RefusedField(Flagged(began), avail);
      RefusedField(Flagged(began), first);
    } else {
      ProxyKeepsWaiting(began, avail, typed);
      if began.single {
        FirstByteOnly(Flagged(began), avail);
        FirstByteOnly(Flagged(began), first);
        assert avail[0] == first[0] && avail[1..] == rest;
      } else {
        assert avail == rest;
        if began.length == 0 {
          EmptyField(Flagged(began), rest);
        } else {
          EnterEmpty(began, typed);
          ProxyIsString(Flagged(began), rest, typed);
          if rest != [] {
            BlockIsBytes(Flagged(began), rest, typed);
          }
        }
      }
    }
  }

  lemma NextIsCloser(f: Field)
    requires f.IsString()
    ensures f.Next().Left() < f.Left() && f.Next() != f
  {
  }

  lemma RefusedField(m: Machine, avail: bytes)
    requires m.isList || !m.field.Admits(m.length)
    ensures StringField(m, avail) == (m, Fault)
  {
  }

  lemma EmptyField(m: Machine, avail: bytes)
    requires m.length == m.pos == 0
    ensures Taken(m, avail) == 0 && avail[0..] == avail && StringField(m, avail) == StringField(m, [])
  {
    var nothing: bytes := [];
    assert avail[..0] == nothing[..0];
  }

  lemma PutBack(tx: Record, f: Field)
    requires f.IsKept()
    ensures tx.Put(f, tx.Get(f)) == tx
  {
  }

  lemma EnterEmpty(began: Machine, typed: bool)
    requires began.pos == 0 && began.tx.Sized() && began.field.IsString() && !began.single && !began.isList
    requires began.field.Admits(began.length) && began.processing && began.header == [] && began.length != 0
    ensures Proxy(began, [], typed) == (Flagged(began), Processing) && Waiting(Flagged(began))
  {
    var m := Flagged(began);
    ProxyIsString(began, [], typed);
    var nothing: bytes := [];
    assert nothing[..0] == nothing && m.absorbed + nothing == m.absorbed;
    if m.field.IsKept() {
      PutBack(m.tx, m.field);
      var value := m.tx.Get(m.field).value;
      assert Splice(value, 0, []) == value;
    }
    assert Stored(m.tx, m.field, 0, []) == m.tx;
    hide Stored, Completed;
    assert StringField(m, []) == (m, Processing);
  }

  /** The result of entering a field, continued with what is left. */
  ghost function Continued(r: (Machine, Status), rest: bytes, typed: bool): (Machine, Status) {
    if r.1 == Fault then r else Feed(r.0, rest, typed)
  }

  /** The peek buffer holds exactly one header and `b` is its last byte. */
  ghost predicate HeaderRead(m: Machine, b: uint8) {
    m.field != NoField && m.field != TxDone && m.tx.Sized() && !m.single && !m.processing
    && 1 <= |m.header| <= 5 && m.header[|m.header| - 1] == b
    && LengthOfLength(m.header[0]) <= 4 && |m.header| == 1 + LengthOfLength(m.header[0])
  }

  lemma FeedNothing(m: Machine, typed: bool)
    requires m.field != TxDone
    ensures Feed(m, [], typed) == (m, Processing)
  {
  }

  /** One byte outside a field, in the cases of the detection loop. */
  lemma FeedHeaderByte(m: Machine, s: bytes, typed: bool)
    requires Waiting(m) && !m.processing && m.field != TxDone && s != []
    ensures |m.header| == 5 ==> Feed(m, s, typed) == (m, Fault)
    ensures |m.header| < 5 ==>
              var b := s[0];
              var m' := m.(header := m.header + [b], absorbed := m.absorbed + [b]);
              if CanDecode(m'.header) == Ok(Incomplete) then Waiting(m') && Feed(m, s, typed) == Feed(m', s[1..], typed)
              else if CanDecode(m'.header) == Ok(Decodable) then
                HeaderRead(m', b) && Feed(m, s, typed) == Continued(Enter(m', b, typed), s[1..], typed)
              else Feed(m, s, typed) == (m', Fault)
  {
    if |m.header| < 5 {
      HeaderDetection(m.header + [s[0]]);
      if CanDecode(m.header + [s[0]]) == Ok(Decodable) {
        HeaderComplete(m, s[0]);
      }
    }
  }
}
