/** How long a written kive.conf is, and a configuration that is written and then refused
    (bucket/kive_conf_block.go, conf/helpers.go). */
module KiveSizes {
  import opened ConfText
  import opened ConfNumber
  import opened ConfEmit
  import opened KiveConfig
  import opened KiveRoundTrip
  import ConfRoundTrip

  /** Every printed argument list is at most 100 characters. */
  ghost predicate Brief(c: KiveConf) {
    forall k :: Shown(c, k) ==> |ArgsText(Args(Printed(c, k)))| <= 100
  }

  lemma NameShort(k: Setting)
    ensures |NameOf(k)| <= 24
  {
  }

  lemma BlockShort(b: string)
    requires KnownBlock(b)
    ensures |b| <= 12
  {
  }

  lemma MembersFew(i: nat)
    requires i < |Layout|
    ensures |Members(Layout[i])| <= 5
  {
  }

  lemma IndentShort(level: nat)
    requires level <= 1
    ensures |Repeat("  ", level)| <= 2
  {
  }

  lemma CallShort(c: KiveConf, k: Setting, level: nat)
    requires Brief(c) && Shown(c, k) && level <= 1
    ensures |StmtText(SettingCall(c, k), level, "  ")| <= 130
  {
    hide Shown, Printed, NameOf, Args, ArgsText, Repeat;
    NameShort(k);
    IndentShort(level);
  }

  lemma {:induction false} BodyShort(c: KiveConf, ks: seq<Setting>, level: nat)
    requires Brief(c) && level <= 1
    ensures |StmtsText(BodyStmts(c, ks), level, "  ")| <= 130 * |ks|
  {
    hide Brief, Shown, SettingCall, StmtText;
    if ks != [] {
      BodyShort(c, ks[1..], level);
      if Shown(c, ks[0]) {
        CallShort(c, ks[0], level);
        assert BodyStmts(c, ks)[1..] == BodyStmts(c, ks[1..]);
      } else {
        assert BodyStmts(c, ks) == BodyStmts(c, ks[1..]);
      }
    }
  }

  lemma SectionShort(c: KiveConf, i: nat)
    requires Brief(c) && i < |Layout|
    ensures var ss := SectionStmts(c, Layout[i]); |ss| <= 1 && (ss != [] ==> |StmtText(ss[0], 0, "  ")| <= 700)
  {
    hide Layout, Brief, Shown, BodyStmts, SettingCall, KnownBlock, Rank, BlockOf, BlockRank, StmtsText;
    LayoutOk(i);
    MembersFew(i);
    match Layout[i]
    case Top(k) =>
      OneSetting(c, k);
      if Shown(c, k) {
        CallShort(c, k, 0);
      }
    case Group(block, ks) =>
      BodyShort(c, ks, 1);
      BlockShort(block);
      IndentShort(0);
  }

  lemma {:induction false} FileShort(c: KiveConf, i: nat)
    requires Brief(c) && i <= |Layout|
    ensures |TopText(FileStmts(c, Layout[i..]), "  ")| <= 701 * (|Layout| - i)
    decreases |Layout| - i
  {
    hide Layout, Brief, SectionStmts, StmtText;
    if i < |Layout| {
      var head, rest := SectionStmts(c, Layout[i]), FileStmts(c, Layout[i + 1..]);
      assert Layout[i..][0] == Layout[i] && Layout[i..][1..] == Layout[i + 1..];
      SectionShort(c, i);
      FileShort(c, i + 1);
      if head == [] {
        assert head + rest == rest;
      } else {
        assert (head + rest)[1..] == rest;
      }
    }
  }

  /** A configuration with brief arguments fits the source limit. */
  lemma BriefFits(c: KiveConf)
    requires Brief(c)
    ensures ByteLen(KiveConfig.EmitText(c)) <= MaxSourceBytes
  {
    hide Layout, Brief, FileStmts, TopText, ByteLen;
    assert Layout[0..] == Layout;
    FileShort(c, 0);
    LayoutSize();
    WordBytes(KiveConfig.EmitText(c));
  }

  /** All defaults but a retention count of -2. */
  const BelowMinusOne: KiveConf := Put(Zero, RunCount, Num(-2))

  /** It can be written, well within the limits, and what is written is refused. */
  lemma BelowMinusOneRefused()
    ensures Printable(BelowMinusOne) && ByteLen(KiveConfig.EmitText(BelowMinusOne)) <= MaxSourceBytes
    ensures !Acceptable(BelowMinusOne)
    ensures ParseText(KiveConfig.EmitText(BelowMinusOne)).Err?
  {
    hide KiveConfig.EmitText, ParseText, ArgsText, Args;
    assert !Readable(BelowMinusOne, RunCount);
    forall k | Shown(BelowMinusOne, k)
      ensures DatumOk(Printed(BelowMinusOne, k)) && |ArgsText(Args(Printed(BelowMinusOne, k)))| <= 100
    {
      DefaultsPrintable(k);
      DatumShort(Printed(BelowMinusOne, k));
    }
    BriefFits(BelowMinusOne);
    RoundTrip(BelowMinusOne);
  }

  /** What the defaults print: the default timezone, flags, and the numbers 0, 60 and -2. */
  predicate Plain(d: Datum) {
    d == Text(DefaultTimezone) || d.Flag? || (d.Num? && -9 <= d.n <= 99)
  }

  lemma DefaultsPrintable(k: Setting)
    requires Shown(BelowMinusOne, k)
    ensures DatumOk(Printed(BelowMinusOne, k)) && Plain(Printed(BelowMinusOne, k))
  {
    hide ByteLen;
    NoBlanks();
    NoRange();
    WordBytes(DefaultTimezone);
    EmptyBytes();
  }

  lemma DatumShort(d: Datum)
    requires Plain(d)
    ensures |ArgsText(Args(d))| <= 100
  {
    match d
    case Text(s) => EscapeShort(s);
    case Num(n) => ItoaShort(n);
    case _ =>
  }

  lemma {:induction false} EscapeShort(s: string)
    ensures |Escape(s)| <= 2 * |s|
  {
    if s != "" {
      EscapeShort(s[1..]);
    }
  }

  lemma ItoaShort(n: int)
    requires -9 <= n <= 99
    ensures |Itoa(n)| <= 3
  {
    assert n >= 10 ==> |ItoaNat(n / 10)| == 1;
    assert n < 0 ==> |ItoaNat(-n)| == 1;
  }
}
