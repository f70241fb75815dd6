/** The monitor-element store the DQM client reads and writes, reduced to what
    the client uses: bin contents, an entry count, axis labels, and the
    get / setBinContent / Fill / Reset operations addressed by full name.
    A name missing from the store is a null MonitorElement pointer. */
module Histograms {

  /** A bin coordinate. 2-D maps use (x, y) with y >= 1; 1-D histograms use
      row 0 (see Bin). */
  datatype Cell = Cell(x: int, y: int)

  /** Bin x of a 1-D histogram. */
  function Bin(x: int): Cell {
    Cell(x, 0)
  }

  /** A histogram: bin contents (absent bins hold 0), the number of entries
      as ROOT counts them (a double), and the labels of both axes. */
  datatype Histo = Histo(content: map<Cell, real>, entries: real, xLabels: map<int, string>, yLabels: map<int, string>)

  type Store = map<string, Histo>

  /** getBinContent */
  function Get(h: Histo, c: Cell): real {
    if c in h.content then h.content[c] else 0.0
  }

  /** A freshly booked histogram with the given axis labels. */
  function Booked(xLabels: map<int, string>, yLabels: map<int, string>): (h: Histo)
    ensures forall c :: Get(h, c) == 0.0
    ensures h.entries == 0.0
  {
    Histo(map[], 0.0, xLabels, yLabels)
  }

  /** setBinContent(x, y, v): one bin is overwritten, and ROOT counts the
      call as one more entry; the labels stay. */
  function SetBinContent(h: Histo, c: Cell, v: real): (r: Histo)
    ensures Get(r, c) == v
    ensures forall d :: d != c ==> Get(r, d) == Get(h, d)
    ensures r.entries == h.entries + 1.0
    ensures r.xLabels == h.xLabels && r.yLabels == h.yLabels
  {
    h.(content := h.content[c := v], entries := h.entries + 1.0)
  }

  /** Fill(v) on a 7-bin axis over [0.5, 7.5]: an integer value k in 1..7
      falls in bin k, which gains one count, and the entry count grows by one. */
  function FillBin(h: Histo, k: int): (r: Histo)
    ensures Get(r, Bin(k)) == Get(h, Bin(k)) + 1.0
    ensures forall d :: d != Bin(k) ==> Get(r, d) == Get(h, d)
    ensures r.entries == h.entries + 1.0
    ensures r.xLabels == h.xLabels && r.yLabels == h.yLabels
  {
    h.(content := h.content[Bin(k) := Get(h, Bin(k)) + 1.0], entries := h.entries + 1.0)
  }

  /** Reset(): every bin and the entry count go back to zero; labels stay. */
  function ResetHisto(h: Histo): (r: Histo)
    ensures forall c :: Get(r, c) == 0.0
    ensures r.entries == 0.0
    ensures r.xLabels == h.xLabels && r.yLabels == h.yLabels
  {
    h.(content := map[], entries := 0.0)
  }

  /** `if (me) me->setBinContent(x, y, v)` through a pointer got by name. */
  function SetIn(s: Store, name: string, c: Cell, v: real): (r: Store)
    ensures r.Keys == s.Keys
    ensures name in s ==> r[name] == SetBinContent(s[name], c, v)
    ensures forall n :: n in s && n != name ==> r[n] == s[n]
  {
    if name in s then s[name := SetBinContent(s[name], c, v)] else s
  }

  /** `if (me) me->Fill(k)` */
  function FillIn(s: Store, name: string, k: int): (r: Store)
    ensures r.Keys == s.Keys
    ensures name in s ==> r[name] == FillBin(s[name], k)
    ensures forall n :: n in s && n != name ==> r[n] == s[n]
  {
    if name in s then s[name := FillBin(s[name], k)] else s
  }

  /** `if (me) me->Reset()` */
  function ResetIn(s: Store, name: string): (r: Store)
    ensures r.Keys == s.Keys
    ensures name in s ==> r[name] == ResetHisto(s[name])
    ensures forall n :: n in s && n != name ==> r[n] == s[n]
  {
    if name in s then s[name := ResetHisto(s[name])] else s
  }

  /** Total content of the seven state bins of a distribution. */
  function Sum7(h: Histo): real {
    Get(h, Bin(1)) + Get(h, Bin(2)) + Get(h, Bin(3)) + Get(h, Bin(4))
      + Get(h, Bin(5)) + Get(h, Bin(6)) + Get(h, Bin(7))
  }

  /** A distribution whose entries are exactly the counts in its seven bins:
      what Reset followed by fills of values 1..7 leaves behind. */
  predicate Consistent(h: Histo) {
    Sum7(h) == h.entries
  }

  lemma ResetIsConsistent(h: Histo)
    ensures Consistent(ResetHisto(h))
  {
  }

  /** Filling one of the seven state bins keeps a distribution consistent. */
  lemma FillKeepsConsistent(h: Histo, k: int)
    requires 1 <= k <= 7
    requires Consistent(h)
    ensures Consistent(FillBin(h, k))
  {
    var r := FillBin(h, k);
    assert Get(r, Bin(k)) == Get(h, Bin(k)) + 1.0;
    forall j | 1 <= j <= 7 && j != k
      ensures Get(r, Bin(j)) == Get(h, Bin(j))
    {
      assert Bin(j) != Bin(k);
    }
  }
}
