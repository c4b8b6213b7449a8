/** The recognizer as it runs: one left-to-right pass whose position only ever grows. */
module ScipRecognizer {
  import opened Orders
  import opened ScipSymbol

  /** `k` characters further. */
  function Further(k: nat, rest: Option<nat>): Option<nat> {
    match rest case None => None case Some(m) => Some(k + m)
  }

  lemma Slices(s: string, p: nat, k: nat)
    requires p + k <= |s|
    ensures s[p..][k..] == s[p + k..]
  {}

  /** `_name_end`: past the identifier at a position, or -1. */
  method NameEnd(symbol: string, position: nat) returns (end: int)
    requires position <= |symbol|
    ensures end == (match NameLen(symbol[position..]) case None => -1 case Some(k) => position + k)
    ensures end == -1 || position < end <= |symbol|
  {
    hide QuotedLen, IdentLen;
    var size, p := |symbol|, position;
    if p < size && symbol[p] == '`' {
      p := p + 1;
      var special := false;
      Slices(symbol, position, 1);
      while p < size
        invariant position < p <= size
        invariant QuotedLen(symbol[position + 1..], false) == Further(p - position - 1, QuotedLen(symbol[p..], special))
      {
        QuotedStep(symbol, p, special);
        if symbol[p] == '`' {
          if p + 1 < size && symbol[p + 1] == '`' {
            p := p + 2;
            special := true;
            continue;
          }
          return if special then p + 1 else -1;
        }
        special := special || !IdentChar(symbol[p]);
        p := p + 1;
      }
      QuotedEnds(symbol, p, special);
      return -1;
    }
    while p < size && IdentChar(symbol[p])
      invariant position <= p <= size
      invariant IdentLen(symbol[position..]) == p - position + IdentLen(symbol[p..])
    {
      IdentStep(symbol, p);
      p := p + 1;
    }
    IdentStops(symbol, p);
    return if p > position then p else -1;
  }

  lemma QuotedStep(s: string, p: nat, special: bool)
    requires p < |s|
    ensures QuotedLen(s[p..], special)
         == if s[p] == '`' then
              if p + 1 < |s| && s[p + 1] == '`' then Further(2, QuotedLen(s[p + 2..], true))
              else if special then Some(1) else None
            else Further(1, QuotedLen(s[p + 1..], special || !IdentChar(s[p])))
  {
    Slices(s, p, 1);
    if p + 1 < |s| { Slices(s, p, 2); }
  }

  lemma QuotedEnds(s: string, p: nat, special: bool)
    requires p >= |s|
    ensures p == |s| ==> QuotedLen(s[p..], special) == None
  {}

  lemma IdentStep(s: string, p: nat)
    requires p < |s| && IdentChar(s[p])
    ensures IdentLen(s[p..]) == 1 + IdentLen(s[p + 1..])
  {
    Slices(s, p, 1);
  }

  lemma IdentStops(s: string, p: nat)
    requires p <= |s| && (p < |s| ==> !IdentChar(s[p]))
    ensures IdentLen(s[p..]) == 0
  {}

  predicate NoneOrDescriptors(t: string) {
    t == [] || Descriptors(t)
  }

  /** `_valid_descriptors`. */
  method ValidDescriptors(symbol: string, start: nat) returns (valid: bool)
    requires start <= |symbol|
    ensures valid == Descriptors(symbol[start..])
  {
    hide DescriptorLen, Descriptors;
    var size, position := |symbol|, start;
    if position >= size {
      NoDescriptors();
      return false;
    }
    while position < size
      invariant start <= position <= size
      invariant Descriptors(symbol[start..]) == NoneOrDescriptors(symbol[position..])
      decreases size - position
    {
      var next := DescriptorEnd(symbol, position);
      DescriptorsStep(symbol, position);
      if next < 0 {
        return false;
      }
      position := next;
    }
    return true;
  }

  lemma NoDescriptors()
    ensures !Descriptors([])
  {}

  lemma DescriptorsStep(s: string, p: nat)
    requires p < |s|
    ensures var k := DescriptorLen(s[p..]);
            Descriptors(s[p..]) <==> k.Some? && NoneOrDescriptors(s[p + k.value..])
  {
    hide DescriptorLen;
    var k := DescriptorLen(s[p..]);
    if k.Some? { Slices(s, p, k.value); }
  }

  /** One turn of the descriptor loop. */
  method DescriptorEnd(symbol: string, position: nat) returns (next: int)
    requires position < |symbol|
    ensures next == (match DescriptorLen(symbol[position..]) case None => -1 case Some(k) => position + k)
    ensures next == -1 || position < next <= |symbol|
  {
    hide NameLen, IdentLen;
    var size, opener := |symbol|, symbol[position];
    assert symbol[position..][0] == opener;
    if opener == '(' || opener == '[' {
      var end := NameEnd(symbol, position + 1);
      Slices(symbol, position, 1);
      if end < 0 || end >= size || symbol[end] != (if opener == '(' then ')' else ']') {
        return -1;
      }
      return end + 1;
    }
    var end := NameEnd(symbol, position);
    if end < 0 || end >= size {
      return -1;
    }
    assert symbol[position..][end - position] == symbol[end];
    if SuffixChar(symbol[end]) {
      return end + 1;
    }
    if symbol[end] != '(' {
      return -1;
    }
    var close := end + 1;
    while close < size && IdentChar(symbol[close])
      invariant end + 1 <= close <= size
      invariant IdentLen(symbol[end + 1..]) == close - end - 1 + IdentLen(symbol[close..])
    {
      IdentStep(symbol, close);
      close := close + 1;
    }
    IdentStops(symbol, close);
    Slices(symbol, position, end + 1 - position);
    Slices(symbol, position, close - position);
    if !(close + 2 <= size && symbol[close..close + 2] == ").") {
      return -1;
    }
    assert symbol[close..][..2] == symbol[close..close + 2];
    return close + 2;
  }

  /** `is_valid_symbol`, single pass. */
  method IsValidSymbol(symbol: string) returns (valid: bool)
    ensures valid == Accepts(symbol)
  {
    hide Fields, FieldLen, Ident, NoControls, Descriptors;
    var clean := NoControls(symbol);
    if symbol == [] || !clean {
      return false;
    }
    if StartsWith(symbol, "local ") {
      return |symbol| > 6 && Ident(symbol[6..]);
    }
    var position := 0;
    assert symbol[0..] == symbol;
    for field := 0 to 4
      invariant position <= |symbol|
      invariant Fields(symbol, 4) == Fields(symbol[position..], 4 - field)
      invariant field > 0 ==> !StartsWith(symbol, "local")
    {
      var start := position;
      while position < |symbol|
        invariant start <= position <= |symbol|
        invariant FieldLen(symbol[start..]) == position - start + FieldLen(symbol[position..])
      {
        FieldStep(symbol, position);
        if symbol[position] != ' ' {
          position := position + 1;
        } else if position + 1 < |symbol| && symbol[position + 1] == ' ' {
          position := position + 2;
        } else {
          break;
        }
      }
      FieldStops(symbol, position);
      FieldsStep(symbol, start, 4 - field, position);
      if position == start || position >= |symbol| {
        return false;
      }
      if field == 0 && StartsWith(symbol, "local") {
        return false;
      }
      position := position + 1;
    }
    FieldsDone(symbol[position..]);
    valid := ValidDescriptors(symbol, position);
  }

  lemma FieldStep(s: string, p: nat)
    requires p < |s|
    ensures FieldLen(s[p..])
         == if s[p] != ' ' then 1 + FieldLen(s[p + 1..])
            else if p + 1 < |s| && s[p + 1] == ' ' then 2 + FieldLen(s[p + 2..])
            else 0
  {
    Slices(s, p, 1);
    if p + 1 < |s| { Slices(s, p, 2); }
  }

  lemma FieldStops(s: string, p: nat)
    requires p <= |s|
    ensures p == |s| ==> FieldLen(s[p..]) == 0
  {}

  lemma FieldsStep(s: string, start: nat, n: nat, p: nat)
    requires start <= p <= |s| && n > 0 && FieldLen(s[start..]) == p - start
    ensures Fields(s[start..], n) <==> start < p < |s| && Fields(s[p + 1..], n - 1)
  {
    hide FieldLen;
    if p < |s| { Slices(s, start, p + 1 - start); }
  }

  lemma FieldsDone(t: string)
    ensures Fields(t, 0) <==> Descriptors(t)
  {}
}
