/** Arithmetic in GF(2^8), the finite field of FIPS 197 section 4.2: bytes are
    polynomials over GF(2) reduced modulo x^8 + x^4 + x^3 + x + 1.  Addition is
    XOR; multiplication, division, inverse, exponent and logarithm go through
    the powers of the generator 3 and their logarithms.  The vector lemmas pin
    the definitions to the expected values of
    tests/unit/lib/secretSharing/gf256.test.ts.

    `ExpTable` and `LogTable` are the two lookup tables, written out.  Each
    entry of the exponent table is proved to be the one before it times the
    generator (so the table holds the powers 3^i), and the two tables are
    proved inverse to each other entry by entry; every field law used by the
    interpolation proof follows from those facts and from the linearity of
    `XTime`. */
module GF256 {
  import opened Errors
  import opened Bitwise
  import opened Bytes

  /** The number of nonzero field elements: exponents are taken modulo 255. */
  const GROUP_ORDER: int := 255

  /** Multiplication by x (FIPS 197 section 4.2.1, "xtime"): shift left by one
      bit and, when bit 7 falls off, reduce by x^8 = x^4 + x^3 + x + 1 (0x1B). */
  function XTime(a: byte): byte {
    if a < 128 then 2 * a
    else
      XorBelow256(2 * a - 256, 0x1B);
      Xor(2 * a - 256, 0x1B)
  }

  /** Multiplication by the generator 3, that is by x + 1. */
  function MulByGenerator(a: byte): byte {
    Add(XTime(a), a)
  }

  /** `acc` multiplied i times by the generator. */
  function GeneratorSteps(acc: byte, i: nat): byte
    decreases i
  {
    if i == 0 then acc else GeneratorSteps(MulByGenerator(acc), i - 1)
  }

  lemma {:induction false} GeneratorStepsLast(acc: byte, i: nat)
    ensures GeneratorSteps(acc, i + 1) == MulByGenerator(GeneratorSteps(acc, i))
    decreases i
  {
    if i > 0 {
      GeneratorStepsLast(MulByGenerator(acc), i - 1);
    }
  }

  /** The exponent table, 3^i for i in [0, 255).  Past the first entry it is
      looked up in one of two written-out halves.  The first entry of each half
      is written in terms of the entry for 0 (which is 1), and likewise in the
      logarithm table in terms of the entry for 1 (which is 0): that makes each
      table a recursive definition, which the verifier opens only as far as a
      proof asks. */
  function ExpTable(i: nat): byte
    requires i < GROUP_ORDER
    decreases i, 2
  {
    if i == 0 then 1 else ExpLookup(i)
  }

  function ExpLookup(i: nat): byte
    requires 0 < i < GROUP_ORDER
    decreases i, 1
  {
    if i < 128 then ExpLow(i) else ExpHigh(i)
  }

  function ExpLow(i: nat): byte
    requires 0 < i < 128
    decreases i, 0
  {
    if i < 64 then
      if i < 32 then
        if i < 16 then
          (if i < 8 then (if i < 4 then (if i < 2 then 3 * ExpTable(0) else (if i < 3 then 5 else 15)) else (if i < 6 then (if i < 5 then 17 else 51) else (if i < 7 then 85 else 255))) else (if i < 12 then (if i < 10 then (if i < 9 then 26 else 46) else (if i < 11 then 114 else 150)) else (if i < 14 then (if i < 13 then 161 else 248) else (if i < 15 then 19 else 53))))
        else
          (if i < 24 then (if i < 20 then (if i < 18 then (if i < 17 then 95 else 225) else (if i < 19 then 56 else 72)) else (if i < 22 then (if i < 21 then 216 else 115) else (if i < 23 then 149 else 164))) else (if i < 28 then (if i < 26 then (if i < 25 then 247 else 2) else (if i < 27 then 6 else 10)) else (if i < 30 then (if i < 29 then 30 else 34) else (if i < 31 then 102 else 170))))
      else
        if i < 48 then
          (if i < 40 then (if i < 36 then (if i < 34 then (if i < 33 then 229 else 52) else (if i < 35 then 92 else 228)) else (if i < 38 then (if i < 37 then 55 else 89) else (if i < 39 then 235 else 38))) else (if i < 44 then (if i < 42 then (if i < 41 then 106 else 190) else (if i < 43 then 217 else 112)) else (if i < 46 then (if i < 45 then 144 else 171) else (if i < 47 then 230 else 49))))
        else
          (if i < 56 then (if i < 52 then (if i < 50 then (if i < 49 then 83 else 245) else (if i < 51 then 4 else 12)) else (if i < 54 then (if i < 53 then 20 else 60) else (if i < 55 then 68 else 204))) else (if i < 60 then (if i < 58 then (if i < 57 then 79 else 209) else (if i < 59 then 104 else 184)) else (if i < 62 then (if i < 61 then 211 else 110) else (if i < 63 then 178 else 205))))
    else
      if i < 96 then
        if i < 80 then
          (if i < 72 then (if i < 68 then (if i < 66 then (if i < 65 then 76 else 212) else (if i < 67 then 103 else 169)) else (if i < 70 then (if i < 69 then 224 else 59) else (if i < 71 then 77 else 215))) else (if i < 76 then (if i < 74 then (if i < 73 then 98 else 166) else (if i < 75 then 241 else 8)) else (if i < 78 then (if i < 77 then 24 else 40) else (if i < 79 then 120 else 136))))
        else
          (if i < 88 then (if i < 84 then (if i < 82 then (if i < 81 then 131 else 158) else (if i < 83 then 185 else 208)) else (if i < 86 then (if i < 85 then 107 else 189) else (if i < 87 then 220 else 127))) else (if i < 92 then (if i < 90 then (if i < 89 then 129 else 152) else (if i < 91 then 179 else 206)) else (if i < 94 then (if i < 93 then 73 else 219) else (if i < 95 then 118 else 154))))
      else
        if i < 112 then
          (if i < 104 then (if i < 100 then (if i < 98 then (if i < 97 then 181 else 196) else (if i < 99 then 87 else 249)) else (if i < 102 then (if i < 101 then 16 else 48) else (if i < 103 then 80 else 240))) else (if i < 108 then (if i < 106 then (if i < 105 then 11 else 29) else (if i < 107 then 39 else 105)) else (if i < 110 then (if i < 109 then 187 else 214) else (if i < 111 then 97 else 163))))
        else
          (if i < 120 then (if i < 116 then (if i < 114 then (if i < 113 then 254 else 25) else (if i < 115 then 43 else 125)) else (if i < 118 then (if i < 117 then 135 else 146) else (if i < 119 then 173 else 236))) else (if i < 124 then (if i < 122 then (if i < 121 then 47 else 113) else (if i < 123 then 147 else 174)) else (if i < 126 then (if i < 125 then 233 else 32) else (if i < 127 then 96 else 160))))
  }

  function ExpHigh(i: nat): byte
    requires 128 <= i < GROUP_ORDER
    decreases i, 0
  {
    if i < 191 then
      if i < 159 then
        if i < 143 then
          (if i < 135 then (if i < 131 then (if i < 129 then 251 * ExpTable(0) else (if i < 130 then 22 else 58)) else (if i < 133 then (if i < 132 then 78 else 210) else (if i < 134 then 109 else 183))) else (if i < 139 then (if i < 137 then (if i < 136 then 194 else 93) else (if i < 138 then 231 else 50)) else (if i < 141 then (if i < 140 then 86 else 250) else (if i < 142 then 21 else 63))))
        else
          (if i < 151 then (if i < 147 then (if i < 145 then (if i < 144 then 65 else 195) else (if i < 146 then 94 else 226)) else (if i < 149 then (if i < 148 then 61 else 71) else (if i < 150 then 201 else 64))) else (if i < 155 then (if i < 153 then (if i < 152 then 192 else 91) else (if i < 154 then 237 else 44)) else (if i < 157 then (if i < 156 then 116 else 156) else (if i < 158 then 191 else 218))))
      else
        if i < 175 then
          (if i < 167 then (if i < 163 then (if i < 161 then (if i < 160 then 117 else 159) else (if i < 162 then 186 else 213)) else (if i < 165 then (if i < 164 then 100 else 172) else (if i < 166 then 239 else 42))) else (if i < 171 then (if i < 169 then (if i < 168 then 126 else 130) else (if i < 170 then 157 else 188)) else (if i < 173 then (if i < 172 then 223 else 122) else (if i < 174 then 142 else 137))))
        else
          (if i < 183 then (if i < 179 then (if i < 177 then (if i < 176 then 128 else 155) else (if i < 178 then 182 else 193)) else (if i < 181 then (if i < 180 then 88 else 232) else (if i < 182 then 35 else 101))) else (if i < 187 then (if i < 185 then (if i < 184 then 175 else 234) else (if i < 186 then 37 else 111)) else (if i < 189 then (if i < 188 then 177 else 200) else (if i < 190 then 67 else 197))))
    else
      if i < 223 then
        if i < 207 then
          (if i < 199 then (if i < 195 then (if i < 193 then (if i < 192 then 84 else 252) else (if i < 194 then 31 else 33)) else (if i < 197 then (if i < 196 then 99 else 165) else (if i < 198 then 244 else 7))) else (if i < 203 then (if i < 201 then (if i < 200 then 9 else 27) else (if i < 202 then 45 else 119)) else (if i < 205 then (if i < 204 then 153 else 176) else (if i < 206 then 203 else 70))))
        else
          (if i < 215 then (if i < 211 then (if i < 209 then (if i < 208 then 202 else 69) else (if i < 210 then 207 else 74)) else (if i < 213 then (if i < 212 then 222 else 121) else (if i < 214 then 139 else 134))) else (if i < 219 then (if i < 217 then (if i < 216 then 145 else 168) else (if i < 218 then 227 else 62)) else (if i < 221 then (if i < 220 then 66 else 198) else (if i < 222 then 81 else 243))))
      else
        if i < 239 then
          (if i < 231 then (if i < 227 then (if i < 225 then (if i < 224 then 14 else 18) else (if i < 226 then 54 else 90)) else (if i < 229 then (if i < 228 then 238 else 41) else (if i < 230 then 123 else 141))) else (if i < 235 then (if i < 233 then (if i < 232 then 140 else 143) else (if i < 234 then 138 else 133)) else (if i < 237 then (if i < 236 then 148 else 167) else (if i < 238 then 242 else 13))))
        else
          (if i < 247 then (if i < 243 then (if i < 241 then (if i < 240 then 23 else 57) else (if i < 242 then 75 else 221)) else (if i < 245 then (if i < 244 then 124 else 132) else (if i < 246 then 151 else 162))) else (if i < 251 then (if i < 249 then (if i < 248 then 253 else 28) else (if i < 250 then 36 else 108)) else (if i < 253 then (if i < 252 then 180 else 199) else (if i < 254 then 82 else 246))))
  }

  /** The logarithm table: the exponent of each nonzero byte, and 0 at 0. */
  function LogTable(a: byte): int
    decreases a, 2
  {
    if a == 0 then 0 else LogLookup(a)
  }

  function LogLookup(a: byte): int
    requires a != 0
    decreases a, 1
  {
    if a < 128 then LogLow(a) else LogHigh(a)
  }

  function LogLow(a: byte): int
    requires 0 < a < 128
    decreases a, 0
  {
    if a < 64 then
      if a < 32 then
        if a < 16 then
          (if a < 8 then (if a < 4 then (if a < 2 then 0 else (if a < 3 then 25 else LogTable(1) + 1)) else (if a < 6 then (if a < 5 then 50 else 2) else (if a < 7 then 26 else 198))) else (if a < 12 then (if a < 10 then (if a < 9 then 75 else 199) else (if a < 11 then 27 else 104)) else (if a < 14 then (if a < 13 then 51 else 238) else (if a < 15 then 223 else 3))))
        else
          (if a < 24 then (if a < 20 then (if a < 18 then (if a < 17 then 100 else 4) else (if a < 19 then 224 else 14)) else (if a < 22 then (if a < 21 then 52 else 141) else (if a < 23 then 129 else 239))) else (if a < 28 then (if a < 26 then (if a < 25 then 76 else 113) else (if a < 27 then 8 else 200)) else (if a < 30 then (if a < 29 then 248 else 105) else (if a < 31 then 28 else 193))))
      else
        if a < 48 then
          (if a < 40 then (if a < 36 then (if a < 34 then (if a < 33 then 125 else 194) else (if a < 35 then 29 else 181)) else (if a < 38 then (if a < 37 then 249 else 185) else (if a < 39 then 39 else 106))) else (if a < 44 then (if a < 42 then (if a < 41 then 77 else 228) else (if a < 43 then 166 else 114)) else (if a < 46 then (if a < 45 then 154 else 201) else (if a < 47 then 9 else 120))))
        else
          (if a < 56 then (if a < 52 then (if a < 50 then (if a < 49 then 101 else 47) else (if a < 51 then 138 else 5)) else (if a < 54 then (if a < 53 then 33 else 15) else (if a < 55 then 225 else 36))) else (if a < 60 then (if a < 58 then (if a < 57 then 18 else 240) else (if a < 59 then 130 else 69)) else (if a < 62 then (if a < 61 then 53 else 147) else (if a < 63 then 218 else 142))))
    else
      if a < 96 then
        if a < 80 then
          (if a < 72 then (if a < 68 then (if a < 66 then (if a < 65 then 150 else 143) else (if a < 67 then 219 else 189)) else (if a < 70 then (if a < 69 then 54 else 208) else (if a < 71 then 206 else 148))) else (if a < 76 then (if a < 74 then (if a < 73 then 19 else 92) else (if a < 75 then 210 else 241)) else (if a < 78 then (if a < 77 then 64 else 70) else (if a < 79 then 131 else 56))))
        else
          (if a < 88 then (if a < 84 then (if a < 82 then (if a < 81 then 102 else 221) else (if a < 83 then 253 else 48)) else (if a < 86 then (if a < 85 then 191 else 6) else (if a < 87 then 139 else 98))) else (if a < 92 then (if a < 90 then (if a < 89 then 179 else 37) else (if a < 91 then 226 else 152)) else (if a < 94 then (if a < 93 then 34 else 136) else (if a < 95 then 145 else 16))))
      else
        if a < 112 then
          (if a < 104 then (if a < 100 then (if a < 98 then (if a < 97 then 126 else 110) else (if a < 99 then 72 else 195)) else (if a < 102 then (if a < 101 then 163 else 182) else (if a < 103 then 30 else 66))) else (if a < 108 then (if a < 106 then (if a < 105 then 58 else 107) else (if a < 107 then 40 else 84)) else (if a < 110 then (if a < 109 then 250 else 133) else (if a < 111 then 61 else 186))))
        else
          (if a < 120 then (if a < 116 then (if a < 114 then (if a < 113 then 43 else 121) else (if a < 115 then 10 else 21)) else (if a < 118 then (if a < 117 then 155 else 159) else (if a < 119 then 94 else 202))) else (if a < 124 then (if a < 122 then (if a < 121 then 78 else 212) else (if a < 123 then 172 else 229)) else (if a < 126 then (if a < 125 then 243 else 115) else (if a < 127 then 167 else 87))))
  }

  function LogHigh(a: byte): int
    requires 128 <= a
    decreases a, 0
  {
    if a < 192 then
      if a < 160 then
        if a < 144 then
          (if a < 136 then (if a < 132 then (if a < 130 then (if a < 129 then LogTable(1) + 175 else 88) else (if a < 131 then 168 else 80)) else (if a < 134 then (if a < 133 then 244 else 234) else (if a < 135 then 214 else 116))) else (if a < 140 then (if a < 138 then (if a < 137 then 79 else 174) else (if a < 139 then 233 else 213)) else (if a < 142 then (if a < 141 then 231 else 230) else (if a < 143 then 173 else 232))))
        else
          (if a < 152 then (if a < 148 then (if a < 146 then (if a < 145 then 44 else 215) else (if a < 147 then 117 else 122)) else (if a < 150 then (if a < 149 then 235 else 22) else (if a < 151 then 11 else 245))) else (if a < 156 then (if a < 154 then (if a < 153 then 89 else 203) else (if a < 155 then 95 else 176)) else (if a < 158 then (if a < 157 then 156 else 169) else (if a < 159 then 81 else 160))))
      else
        if a < 176 then
          (if a < 168 then (if a < 164 then (if a < 162 then (if a < 161 then 127 else 12) else (if a < 163 then 246 else 111)) else (if a < 166 then (if a < 165 then 23 else 196) else (if a < 167 then 73 else 236))) else (if a < 172 then (if a < 170 then (if a < 169 then 216 else 67) else (if a < 171 then 31 else 45)) else (if a < 174 then (if a < 173 then 164 else 118) else (if a < 175 then 123 else 183))))
        else
          (if a < 184 then (if a < 180 then (if a < 178 then (if a < 177 then 204 else 187) else (if a < 179 then 62 else 90)) else (if a < 182 then (if a < 181 then 251 else 96) else (if a < 183 then 177 else 134))) else (if a < 188 then (if a < 186 then (if a < 185 then 59 else 82) else (if a < 187 then 161 else 108)) else (if a < 190 then (if a < 189 then 170 else 85) else (if a < 191 then 41 else 157))))
    else
      if a < 224 then
        if a < 208 then
          (if a < 200 then (if a < 196 then (if a < 194 then (if a < 193 then 151 else 178) else (if a < 195 then 135 else 144)) else (if a < 198 then (if a < 197 then 97 else 190) else (if a < 199 then 220 else 252))) else (if a < 204 then (if a < 202 then (if a < 201 then 188 else 149) else (if a < 203 then 207 else 205)) else (if a < 206 then (if a < 205 then 55 else 63) else (if a < 207 then 91 else 209))))
        else
          (if a < 216 then (if a < 212 then (if a < 210 then (if a < 209 then 83 else 57) else (if a < 211 then 132 else 60)) else (if a < 214 then (if a < 213 then 65 else 162) else (if a < 215 then 109 else 71))) else (if a < 220 then (if a < 218 then (if a < 217 then 20 else 42) else (if a < 219 then 158 else 93)) else (if a < 222 then (if a < 221 then 86 else 242) else (if a < 223 then 211 else 171))))
      else
        if a < 240 then
          (if a < 232 then (if a < 228 then (if a < 226 then (if a < 225 then 68 else 17) else (if a < 227 then 146 else 217)) else (if a < 230 then (if a < 229 then 35 else 32) else (if a < 231 then 46 else 137))) else (if a < 236 then (if a < 234 then (if a < 233 then 180 else 124) else (if a < 235 then 184 else 38)) else (if a < 238 then (if a < 237 then 119 else 153) else (if a < 239 then 227 else 165))))
        else
          (if a < 248 then (if a < 244 then (if a < 242 then (if a < 241 then 103 else 74) else (if a < 243 then 237 else 222)) else (if a < 246 then (if a < 245 then 197 else 49) else (if a < 247 then 254 else 24))) else (if a < 252 then (if a < 250 then (if a < 249 then 13 else 99) else (if a < 251 then 140 else 128)) else (if a < 254 then (if a < 253 then 192 else 247) else (if a < 255 then 112 else 7))))
  }

  /** Multiplication by the generator on a byte written out bit by bit: x times
      the byte shifts it left, folding bit 7 back into bits 4, 3, 1 and 0, and
      the byte itself is added on top. */
  lemma MulByGeneratorBits(a7: nat, a6: nat, a5: nat, a4: nat, a3: nat, a2: nat, a1: nat, a0: nat)
    requires a7 < 2 && a6 < 2 && a5 < 2 && a4 < 2 && a3 < 2 && a2 < 2 && a1 < 2 && a0 < 2
    ensures FromBits(a7, a6, a5, a4, a3, a2, a1, a0) < 256
    ensures MulByGenerator(FromBits(a7, a6, a5, a4, a3, a2, a1, a0))
         == FromBits(Differ(a6, a7), Differ(a5, a6), Differ(a4, a5), Differ(Differ(a3, a7), a4),
                     Differ(Differ(a2, a7), a3), Differ(a1, a2), Differ(Differ(a0, a7), a1), Differ(a7, a0))
  {
    var a := FromBits(a7, a6, a5, a4, a3, a2, a1, a0);
    var t3, t2, t0 := Differ(a3, a7), Differ(a2, a7), Differ(a0, a7);
    if a7 == 0 {
      assert XTime(a) == FromBits(a6, a5, a4, t3, t2, a1, t0, a7);
    } else {
      var shifted := FromBits(a6, a5, a4, a3, a2, a1, a0, 0);
      assert 2 * a - 256 == shifted;
      assert XTime(a) == Xor(shifted, FromBits(0, 0, 0, a7, a7, 0, a7, a7));
      XorOfBits(a6, a5, a4, a3, a2, a1, a0, 0, 0, 0, 0, a7, a7, 0, a7, a7);
      assert Differ(a6, 0) == a6 && Differ(a5, 0) == a5 && Differ(a4, 0) == a4;
      assert Differ(a1, 0) == a1 && Differ(0, a7) == a7;
    }
    XorOfBits(a6, a5, a4, t3, t2, a1, t0, a7, a7, a6, a5, a4, a3, a2, a1, a0);
  }

  /** A byte as its eight bits, most significant first. */
  datatype Bits8 = Bits8(b7: bool, b6: bool, b5: bool, b4: bool, b3: bool, b2: bool, b1: bool, b0: bool)

  /** What is left of r once w is taken off, if it can be. */
  function Below(r: nat, w: nat): nat {
    if r >= w then r - w else r
  }

  /** The bits of a byte, taken off from the top by comparison. */
  function BitsOf(a: byte): Bits8 {
    var r7 := Below(a, 128);
    var r6 := Below(r7, 64);
    var r5 := Below(r6, 32);
    var r4 := Below(r5, 16);
    var r3 := Below(r4, 8);
    var r2 := Below(r3, 4);
    var r1 := Below(r2, 2);
    Bits8(a >= 128, r7 >= 64, r6 >= 32, r5 >= 16, r4 >= 8, r3 >= 4, r2 >= 2, r1 >= 1)
  }

  function Bit(b: bool): nat {
    if b then 1 else 0
  }

  /** The number eight bits spell. */
  function ToByte(x: Bits8): nat {
    128 * Bit(x.b7) + 64 * Bit(x.b6) + 32 * Bit(x.b5) + 16 * Bit(x.b4)
      + 8 * Bit(x.b3) + 4 * Bit(x.b2) + 2 * Bit(x.b1) + Bit(x.b0)
  }

  lemma ToByteIsFromBits(x: Bits8)
    ensures ToByte(x) == FromBits(Bit(x.b7), Bit(x.b6), Bit(x.b5), Bit(x.b4), Bit(x.b3), Bit(x.b2), Bit(x.b1), Bit(x.b0))
  {
  }

  /** The top four bits of a byte and what is left below them. */
  lemma HighBits(a: byte)
    ensures var r4 := Below(Below(Below(Below(a, 128), 64), 32), 16);
      r4 < 16 &&
      a == 128 * Bit(a >= 128) + 64 * Bit(Below(a, 128) >= 64) + 32 * Bit(Below(Below(a, 128), 64) >= 32)
         + 16 * Bit(Below(Below(Below(a, 128), 64), 32) >= 16) + r4
  {
  }

  /** The four bits of a number below 16. */
  lemma LowBits(r: nat)
    requires r < 16
    ensures r == 8 * Bit(r >= 8) + 4 * Bit(Below(r, 8) >= 4) + 2 * Bit(Below(Below(r, 8), 4) >= 2)
         + Bit(Below(Below(Below(r, 8), 4), 2) >= 1)
  {
  }

  /** `ToByte` after `BitsOf`, written out. */
  lemma {:induction false} BitsOfSpelled(a: byte)
    ensures var r4 := Below(Below(Below(Below(a, 128), 64), 32), 16);
      ToByte(BitsOf(a)) == 128 * Bit(a >= 128) + 64 * Bit(Below(a, 128) >= 64) + 32 * Bit(Below(Below(a, 128), 64) >= 32)
         + 16 * Bit(Below(Below(Below(a, 128), 64), 32) >= 16)
         + (8 * Bit(r4 >= 8) + 4 * Bit(Below(r4, 8) >= 4) + 2 * Bit(Below(Below(r4, 8), 4) >= 2)
         + Bit(Below(Below(Below(r4, 8), 4), 2) >= 1))
  {
  }

  /** A byte is the number its bits spell. */
  lemma {:induction false} BitsOfRoundTrip(a: byte)
    ensures ToByte(BitsOf(a)) == a
  {
    HighBits(a);
    LowBits(Below(Below(Below(Below(a, 128), 64), 32), 16));
    BitsOfSpelled(a);
  }

  /** Multiplication by the generator on the bits of a byte (the bitwise form
      of `MulByGeneratorBits`). */
  function MulByGeneratorOnBits(x: Bits8): Bits8 {
    Bits8(x.b6 != x.b7, x.b5 != x.b6, x.b4 != x.b5, (x.b3 != x.b7) != x.b4,
          (x.b2 != x.b7) != x.b3, x.b1 != x.b2, (x.b0 != x.b7) != x.b1, x.b7 != x.b0)
  }

  lemma DifferOfBits(p: bool, q: bool)
    ensures Differ(Bit(p), Bit(q)) == Bit(p != q)
  {
  }

  /** `MulByGeneratorOnBits` spells the bits of `MulByGeneratorBits`. */
  lemma {:induction false} MulByGeneratorOnBitsSpells(x: Bits8)
    ensures ToByte(MulByGeneratorOnBits(x))
         == FromBits(Differ(Bit(x.b6), Bit(x.b7)), Differ(Bit(x.b5), Bit(x.b6)), Differ(Bit(x.b4), Bit(x.b5)),
                     Differ(Differ(Bit(x.b3), Bit(x.b7)), Bit(x.b4)), Differ(Differ(Bit(x.b2), Bit(x.b7)), Bit(x.b3)),
                     Differ(Bit(x.b1), Bit(x.b2)), Differ(Differ(Bit(x.b0), Bit(x.b7)), Bit(x.b1)), Differ(Bit(x.b7), Bit(x.b0)))
  {
    ToByteIsFromBits(MulByGeneratorOnBits(x));
    DifferOfBits(x.b6, x.b7); DifferOfBits(x.b5, x.b6); DifferOfBits(x.b4, x.b5);
    DifferOfBits(x.b3, x.b7); DifferOfBits(x.b3 != x.b7, x.b4);
    DifferOfBits(x.b2, x.b7); DifferOfBits(x.b2 != x.b7, x.b3);
    DifferOfBits(x.b1, x.b2);
    DifferOfBits(x.b0, x.b7); DifferOfBits(x.b0 != x.b7, x.b1);
    DifferOfBits(x.b7, x.b0);
  }

  /** Multiplying by the generator is `MulByGeneratorOnBits` on the bits. */
  lemma {:induction false} MulByGeneratorIsBitwise(a: byte)
    ensures MulByGenerator(a) == ToByte(MulByGeneratorOnBits(BitsOf(a)))
  {
    var x := BitsOf(a);
    BitsOfRoundTrip(a);
    MulByGeneratorBits(Bit(x.b7), Bit(x.b6), Bit(x.b5), Bit(x.b4), Bit(x.b3), Bit(x.b2), Bit(x.b1), Bit(x.b0));
    MulByGeneratorOnBitsSpells(x);
    ToByteIsFromBits(x);
  }

  /** Each entry of the exponent table is the one before it times the
      generator, and the entry after the last one is the first again. */
  lemma ExpTableStep(i: nat)
    requires i < GROUP_ORDER
    ensures ExpTable((i + 1) % GROUP_ORDER) == MulByGenerator(ExpTable(i))
  {
    var j := (i + 1) % GROUP_ORDER;
    MulByGeneratorIsBitwise(ExpTable(i));
    if i < GROUP_ORDER - 1 {
      assert j == i + 1;
      ExpTableStepBits(i);
    } else {
      assert j == 0;
      assert BitsOf(ExpTable(0)) == MulByGeneratorOnBits(BitsOf(ExpTable(254)));
    }
    BitsOfRoundTrip(ExpTable(j));
  }

  /** The exponent table holds the powers of the generator: 1 multiplied i times by 3. */
  lemma {:induction false} ExpTableIsPowers(i: nat)
    requires i < GROUP_ORDER
    ensures ExpTable(i) == GeneratorSteps(1, i)
  {
    if i > 0 {
      ExpTableIsPowers(i - 1);
      ExpTableStep(i - 1);
      GeneratorStepsLast(1, i - 1);
    }
  }

  /** Consecutive entries of the exponent table, on their bits,
      differ by a multiplication by the generator.  Checked for every entry. */
  lemma ExpTableStepBits(i: nat)
    requires i < GROUP_ORDER - 1
    ensures BitsOf(ExpTable(i + 1)) == MulByGeneratorOnBits(BitsOf(ExpTable(i)))
  {
    if i < 4 { ExpTableStepBitsBlock0(i); }
    else if i < 8 { ExpTableStepBitsBlock1(i); }
    else if i < 12 { ExpTableStepBitsBlock2(i); }
    else if i < 16 { ExpTableStepBitsBlock3(i); }
    else if i < 20 { ExpTableStepBitsBlock4(i); }
    else if i < 24 { ExpTableStepBitsBlock5(i); }
    else if i < 28 { ExpTableStepBitsBlock6(i); }
    else if i < 32 { ExpTableStepBitsBlock7(i); }
    else if i < 36 { ExpTableStepBitsBlock8(i); }
    else if i < 40 { ExpTableStepBitsBlock9(i); }
    else if i < 44 { ExpTableStepBitsBlock10(i); }
    else if i < 48 { ExpTableStepBitsBlock11(i); }
    else if i < 52 { ExpTableStepBitsBlock12(i); }
    else if i < 56 { ExpTableStepBitsBlock13(i); }
    else if i < 60 { ExpTableStepBitsBlock14(i); }
    else if i < 64 { ExpTableStepBitsBlock15(i); }
    else if i < 68 { ExpTableStepBitsBlock16(i); }
    else if i < 72 { ExpTableStepBitsBlock17(i); }
    else if i < 76 { ExpTableStepBitsBlock18(i); }
    else if i < 80 { ExpTableStepBitsBlock19(i); }
    else if i < 84 { ExpTableStepBitsBlock20(i); }
    else if i < 88 { ExpTableStepBitsBlock21(i); }
    else if i < 92 { ExpTableStepBitsBlock22(i); }
    else if i < 96 { ExpTableStepBitsBlock23(i); }
    else if i < 100 { ExpTableStepBitsBlock24(i); }
    else if i < 104 { ExpTableStepBitsBlock25(i); }
    else if i < 108 { ExpTableStepBitsBlock26(i); }
    else if i < 112 { ExpTableStepBitsBlock27(i); }
    else if i < 116 { ExpTableStepBitsBlock28(i); }
    else if i < 120 { ExpTableStepBitsBlock29(i); }
    else if i < 124 { ExpTableStepBitsBlock30(i); }
    else if i < 128 { ExpTableStepBitsBlock31(i); }
    else if i < 132 { ExpTableStepBitsBlock32(i); }
    else if i < 136 { ExpTableStepBitsBlock33(i); }
    else if i < 140 { ExpTableStepBitsBlock34(i); }
    else if i < 144 { ExpTableStepBitsBlock35(i); }
    else if i < 148 { ExpTableStepBitsBlock36(i); }
    else if i < 152 { ExpTableStepBitsBlock37(i); }
    else if i < 156 { ExpTableStepBitsBlock38(i); }
    else if i < 160 { ExpTableStepBitsBlock39(i); }
    else if i < 164 { ExpTableStepBitsBlock40(i); }
    else if i < 168 { ExpTableStepBitsBlock41(i); }
    else if i < 172 { ExpTableStepBitsBlock42(i); }
    else if i < 176 { ExpTableStepBitsBlock43(i); }
    else if i < 180 { ExpTableStepBitsBlock44(i); }
    else if i < 184 { ExpTableStepBitsBlock45(i); }
    else if i < 188 { ExpTableStepBitsBlock46(i); }
    else if i < 192 { ExpTableStepBitsBlock47(i); }
    else if i < 196 { ExpTableStepBitsBlock48(i); }
    else if i < 200 { ExpTableStepBitsBlock49(i); }
    else if i < 204 { ExpTableStepBitsBlock50(i); }
    else if i < 208 { ExpTableStepBitsBlock51(i); }
    else if i < 212 { ExpTableStepBitsBlock52(i); }
    else if i < 216 { ExpTableStepBitsBlock53(i); }
    else if i < 220 { ExpTableStepBitsBlock54(i); }
    else if i < 224 { ExpTableStepBitsBlock55(i); }
    else if i < 228 { ExpTableStepBitsBlock56(i); }
    else if i < 232 { ExpTableStepBitsBlock57(i); }
    else if i < 236 { ExpTableStepBitsBlock58(i); }
    else if i < 240 { ExpTableStepBitsBlock59(i); }
    else if i < 244 { ExpTableStepBitsBlock60(i); }
    else if i < 248 { ExpTableStepBitsBlock61(i); }
    else if i < 252 { ExpTableStepBitsBlock62(i); }
    else { ExpTableStepBitsBlock63(i); }
  }

  lemma ExpTableStepBitsBlock0(i: nat)
    requires 0 <= i < 4
    ensures BitsOf(ExpTable(i + 1)) == MulByGeneratorOnBits(BitsOf(ExpTable(i)))
  {
    if i == 0 {
      assert BitsOf(ExpTable(1)) == MulByGeneratorOnBits(BitsOf(ExpTable(0)));
    }
    else if i == 1 {
      assert BitsOf(ExpTable(2)) == MulByGeneratorOnBits(BitsOf(ExpTable(1)));
    }
    else if i == 2 {
      assert BitsOf(ExpTable(3)) == MulByGeneratorOnBits(BitsOf(ExpTable(2)));
    }
    else if i == 3 {
      assert BitsOf(ExpTable(4)) == MulByGeneratorOnBits(BitsOf(ExpTable(3)));
    }
  }

  lemma ExpTableStepBitsBlock1(i: nat)
    requires 4 <= i < 8
    ensures BitsOf(ExpTable(i + 1)) == MulByGeneratorOnBits(BitsOf(ExpTable(i)))
  {
    if i == 4 {
      assert BitsOf(ExpTable(5)) == MulByGeneratorOnBits(BitsOf(ExpTable(4)));
    }
    else if i == 5 {
      assert BitsOf(ExpTable(6)) == MulByGeneratorOnBits(BitsOf(ExpTable(5)));
    }
    else if i == 6 {
      assert BitsOf(ExpTable(7)) == MulByGeneratorOnBits(BitsOf(ExpTable(6)));
    }
    else if i == 7 {
      assert BitsOf(ExpTable(8)) == MulByGeneratorOnBits(BitsOf(ExpTable(7)));
    }
  }

  lemma ExpTableStepBitsBlock2(i: nat)
    requires 8 <= i < 12
    ensures BitsOf(ExpTable(i + 1)) == MulByGeneratorOnBits(BitsOf(ExpTable(i)))
  {
    if i == 8 {
      assert BitsOf(ExpTable(9)) == MulByGeneratorOnBits(BitsOf(ExpTable(8)));
    }
    else if i == 9 {
      assert BitsOf(ExpTable(10)) == MulByGeneratorOnBits(BitsOf(ExpTable(9)));
    }
    else if i == 10 {
      assert BitsOf(ExpTable(11)) == MulByGeneratorOnBits(BitsOf(ExpTable(10)));
    }
    else if i == 11 {
      assert BitsOf(ExpTable(12)) == MulByGeneratorOnBits(BitsOf(ExpTable(11)));
    }
  }

  lemma ExpTableStepBitsBlock3(i: nat)
    requires 12 <= i < 16
    ensures BitsOf(ExpTable(i + 1)) == MulByGeneratorOnBits(BitsOf(ExpTable(i)))
  {
    if i == 12 {
      assert BitsOf(ExpTable(13)) == MulByGeneratorOnBits(BitsOf(ExpTable(12)));
    }
    else if i == 13 {
      assert BitsOf(ExpTable(14)) == MulByGeneratorOnBits(BitsOf(ExpTable(13)));
    }
    else if i == 14 {
      assert BitsOf(ExpTable(15)) == MulByGeneratorOnBits(BitsOf(ExpTable(14)));
    }
    else if i == 15 {
      assert BitsOf(ExpTable(16)) == MulByGeneratorOnBits(BitsOf(ExpTable(15)));
    }
  }

  lemma ExpTableStepBitsBlock4(i: nat)
    requires 16 <= i < 20
    ensures BitsOf(ExpTable(i + 1)) == MulByGeneratorOnBits(BitsOf(ExpTable(i)))
  {
    if i == 16 {
      assert BitsOf(ExpTable(17)) == MulByGeneratorOnBits(BitsOf(ExpTable(16)));
    }
    else if i == 17 {
      assert BitsOf(ExpTable(18)) == MulByGeneratorOnBits(BitsOf(ExpTable(17)));
    }
    else if i == 18 {
      assert BitsOf(ExpTable(19)) == MulByGeneratorOnBits(BitsOf(ExpTable(18)));
    }
    else if i == 19 {
      assert BitsOf(ExpTable(20)) == MulByGeneratorOnBits(BitsOf(ExpTable(19)));
    }
  }

  lemma ExpTableStepBitsBlock5(i: nat)
    requires 20 <= i < 24
    ensures BitsOf(ExpTable(i + 1)) == MulByGeneratorOnBits(BitsOf(ExpTable(i)))
  {
    if i == 20 {
      assert BitsOf(ExpTable(21)) == MulByGeneratorOnBits(BitsOf(ExpTable(20)));
    }
    else if i == 21 {
      assert BitsOf(ExpTable(22)) == MulByGeneratorOnBits(BitsOf(ExpTable(21)));
    }
    else if i == 22 {
      assert BitsOf(ExpTable(23)) == MulByGeneratorOnBits(BitsOf(ExpTable(22)));
    }
    else if i == 23 {
      assert BitsOf(ExpTable(24)) == MulByGeneratorOnBits(BitsOf(ExpTable(23)));
    }
  }

  lemma ExpTableStepBitsBlock6(i: nat)
    requires 24 <= i < 28
    ensures BitsOf(ExpTable(i + 1)) == MulByGeneratorOnBits(BitsOf(ExpTable(i)))
  {
    if i == 24 {
      assert BitsOf(ExpTable(25)) == MulByGeneratorOnBits(BitsOf(ExpTable(24)));
    }
    else if i == 25 {
      assert BitsOf(ExpTable(26)) == MulByGeneratorOnBits(BitsOf(ExpTable(25)));
    }
    else if i == 26 {
      assert BitsOf(ExpTable(27)) == MulByGeneratorOnBits(BitsOf(ExpTable(26)));
    }
    else if i == 27 {
      assert BitsOf(ExpTable(28)) == MulByGeneratorOnBits(BitsOf(ExpTable(27)));
    }
  }

  lemma ExpTableStepBitsBlock7(i: nat)
    requires 28 <= i < 32
    ensures BitsOf(ExpTable(i + 1)) == MulByGeneratorOnBits(BitsOf(ExpTable(i)))
  {
    if i == 28 {
      assert BitsOf(ExpTable(29)) == MulByGeneratorOnBits(BitsOf(ExpTable(28)));
    }
    else if i == 29 {
      assert BitsOf(ExpTable(30)) == MulByGeneratorOnBits(BitsOf(ExpTable(29)));
    }
    else if i == 30 {
      assert BitsOf(ExpTable(31)) == MulByGeneratorOnBits(BitsOf(ExpTable(30)));
    }
    else if i == 31 {
      assert BitsOf(ExpTable(32)) == MulByGeneratorOnBits(BitsOf(ExpTable(31)));
    }
  }

  lemma ExpTableStepBitsBlock8(i: nat)
    requires 32 <= i < 36
    ensures BitsOf(ExpTable(i + 1)) == MulByGeneratorOnBits(BitsOf(ExpTable(i)))
  {
    if i == 32 {
      assert BitsOf(ExpTable(33)) == MulByGeneratorOnBits(BitsOf(ExpTable(32)));
    }
    else if i == 33 {
      assert BitsOf(ExpTable(34)) == MulByGeneratorOnBits(BitsOf(ExpTable(33)));
    }
    else if i == 34 {
      assert BitsOf(ExpTable(35)) == MulByGeneratorOnBits(BitsOf(ExpTable(34)));
    }
    else if i == 35 {
      assert BitsOf(ExpTable(36)) == MulByGeneratorOnBits(BitsOf(ExpTable(35)));
    }
  }

  lemma ExpTableStepBitsBlock9(i: nat)
    requires 36 <= i < 40
    ensures BitsOf(ExpTable(i + 1)) == MulByGeneratorOnBits(BitsOf(ExpTable(i)))
  {
    if i == 36 {
      assert BitsOf(ExpTable(37)) == MulByGeneratorOnBits(BitsOf(ExpTable(36)));
    }
    else if i == 37 {
      assert BitsOf(ExpTable(38)) == MulByGeneratorOnBits(BitsOf(ExpTable(37)));
    }
    else if i == 38 {
      assert BitsOf(ExpTable(39)) == MulByGeneratorOnBits(BitsOf(ExpTable(38)));
    }
    else if i == 39 {
      assert BitsOf(ExpTable(40)) == MulByGeneratorOnBits(BitsOf(ExpTable(39)));
    }
  }

  lemma ExpTableStepBitsBlock10(i: nat)
    requires 40 <= i < 44
    ensures BitsOf(ExpTable(i + 1)) == MulByGeneratorOnBits(BitsOf(ExpTable(i)))
  {
    if i == 40 {
      assert BitsOf(ExpTable(41)) == MulByGeneratorOnBits(BitsOf(ExpTable(40)));
    }
    else if i == 41 {
      assert BitsOf(ExpTable(42)) == MulByGeneratorOnBits(BitsOf(ExpTable(41)));
    }
    else if i == 42 {
      assert BitsOf(ExpTable(43)) == MulByGeneratorOnBits(BitsOf(ExpTable(42)));
    }
    else if i == 43 {
      assert BitsOf(ExpTable(44)) == MulByGeneratorOnBits(BitsOf(ExpTable(43)));
    }
  }

  lemma ExpTableStepBitsBlock11(i: nat)
    requires 44 <= i < 48
    ensures BitsOf(ExpTable(i + 1)) == MulByGeneratorOnBits(BitsOf(ExpTable(i)))
  {
    if i == 44 {
      assert BitsOf(ExpTable(45)) == MulByGeneratorOnBits(BitsOf(ExpTable(44)));
    }
    else if i == 45 {
      assert BitsOf(ExpTable(46)) == MulByGeneratorOnBits(BitsOf(ExpTable(45)));
    }
    else if i == 46 {
      assert BitsOf(ExpTable(47)) == MulByGeneratorOnBits(BitsOf(ExpTable(46)));
    }
    else if i == 47 {
      assert BitsOf(ExpTable(48)) == MulByGeneratorOnBits(BitsOf(ExpTable(47)));
    }
  }

  lemma ExpTableStepBitsBlock12(i: nat)
    requires 48 <= i < 52
    ensures BitsOf(ExpTable(i + 1)) == MulByGeneratorOnBits(BitsOf(ExpTable(i)))
  {
    if i == 48 {
      assert BitsOf(ExpTable(49)) == MulByGeneratorOnBits(BitsOf(ExpTable(48)));
    }
    else if i == 49 {
      assert BitsOf(ExpTable(50)) == MulByGeneratorOnBits(BitsOf(ExpTable(49)));
    }
    else if i == 50 {
      assert BitsOf(ExpTable(51)) == MulByGeneratorOnBits(BitsOf(ExpTable(50)));
    }
    else if i == 51 {
      assert BitsOf(ExpTable(52)) == MulByGeneratorOnBits(BitsOf(ExpTable(51)));
    }
  }

  lemma ExpTableStepBitsBlock13(i: nat)
    requires 52 <= i < 56
    ensures BitsOf(ExpTable(i + 1)) == MulByGeneratorOnBits(BitsOf(ExpTable(i)))
  {
    if i == 52 {
      assert BitsOf(ExpTable(53)) == MulByGeneratorOnBits(BitsOf(ExpTable(52)));
    }
    else if i == 53 {
      assert BitsOf(ExpTable(54)) == MulByGeneratorOnBits(BitsOf(ExpTable(53)));
    }
    else if i == 54 {
      assert BitsOf(ExpTable(55)) == MulByGeneratorOnBits(BitsOf(ExpTable(54)));
    }
    else if i == 55 {
      assert BitsOf(ExpTable(56)) == MulByGeneratorOnBits(BitsOf(ExpTable(55)));
    }
  }

  lemma ExpTableStepBitsBlock14(i: nat)
    requires 56 <= i < 60
    ensures BitsOf(ExpTable(i + 1)) == MulByGeneratorOnBits(BitsOf(ExpTable(i)))
  {
    if i == 56 {
      assert BitsOf(ExpTable(57)) == MulByGeneratorOnBits(BitsOf(ExpTable(56)));
    }
    else if i == 57 {
      assert BitsOf(ExpTable(58)) == MulByGeneratorOnBits(BitsOf(ExpTable(57)));
    }
    else if i == 58 {
      assert BitsOf(ExpTable(59)) == MulByGeneratorOnBits(BitsOf(ExpTable(58)));
    }
    else if i == 59 {
      assert BitsOf(ExpTable(60)) == MulByGeneratorOnBits(BitsOf(ExpTable(59)));
    }
  }

  lemma ExpTableStepBitsBlock15(i: nat)
    requires 60 <= i < 64
    ensures BitsOf(ExpTable(i + 1)) == MulByGeneratorOnBits(BitsOf(ExpTable(i)))
  {
    if i == 60 {
      assert BitsOf(ExpTable(61)) == MulByGeneratorOnBits(BitsOf(ExpTable(60)));
    }
    else if i == 61 {
      assert BitsOf(ExpTable(62)) == MulByGeneratorOnBits(BitsOf(ExpTable(61)));
    }
    else if i == 62 {
      assert BitsOf(ExpTable(63)) == MulByGeneratorOnBits(BitsOf(ExpTable(62)));
    }
    else if i == 63 {
      assert BitsOf(ExpTable(64)) == MulByGeneratorOnBits(BitsOf(ExpTable(63)));
    }
  }

  lemma ExpTableStepBitsBlock16(i: nat)
    requires 64 <= i < 68
    ensures BitsOf(ExpTable(i + 1)) == MulByGeneratorOnBits(BitsOf(ExpTable(i)))
  {
    if i == 64 {
      assert BitsOf(ExpTable(65)) == MulByGeneratorOnBits(BitsOf(ExpTable(64)));
    }
    else if i == 65 {
      assert BitsOf(ExpTable(66)) == MulByGeneratorOnBits(BitsOf(ExpTable(65)));
    }
    else if i == 66 {
      assert BitsOf(ExpTable(67)) == MulByGeneratorOnBits(BitsOf(ExpTable(66)));
    }
    else if i == 67 {
      assert BitsOf(ExpTable(68)) == MulByGeneratorOnBits(BitsOf(ExpTable(67)));
    }
  }

  lemma ExpTableStepBitsBlock17(i: nat)
    requires 68 <= i < 72
    ensures BitsOf(ExpTable(i + 1)) == MulByGeneratorOnBits(BitsOf(ExpTable(i)))
  {
    if i == 68 {
      assert BitsOf(ExpTable(69)) == MulByGeneratorOnBits(BitsOf(ExpTable(68)));
    }
    else if i == 69 {
      assert BitsOf(ExpTable(70)) == MulByGeneratorOnBits(BitsOf(ExpTable(69)));
    }
    else if i == 70 {
      assert BitsOf(ExpTable(71)) == MulByGeneratorOnBits(BitsOf(ExpTable(70)));
    }
    else if i == 71 {
      assert BitsOf(ExpTable(72)) == MulByGeneratorOnBits(BitsOf(ExpTable(71)));
    }
  }

  lemma ExpTableStepBitsBlock18(i: nat)
    requires 72 <= i < 76
    ensures BitsOf(ExpTable(i + 1)) == MulByGeneratorOnBits(BitsOf(ExpTable(i)))
  {
    if i == 72 {
      assert BitsOf(ExpTable(73)) == MulByGeneratorOnBits(BitsOf(ExpTable(72)));
    }
    else if i == 73 {
      assert BitsOf(ExpTable(74)) == MulByGeneratorOnBits(BitsOf(ExpTable(73)));
    }
    else if i == 74 {
      assert BitsOf(ExpTable(75)) == MulByGeneratorOnBits(BitsOf(ExpTable(74)));
    }
    else if i == 75 {
      assert BitsOf(ExpTable(76)) == MulByGeneratorOnBits(BitsOf(ExpTable(75)));
    }
  }

  lemma ExpTableStepBitsBlock19(i: nat)
    requires 76 <= i < 80
    ensures BitsOf(ExpTable(i + 1)) == MulByGeneratorOnBits(BitsOf(ExpTable(i)))
  {
    if i == 76 {
      assert BitsOf(ExpTable(77)) == MulByGeneratorOnBits(BitsOf(ExpTable(76)));
    }
    else if i == 77 {
      assert BitsOf(ExpTable(78)) == MulByGeneratorOnBits(BitsOf(ExpTable(77)));
    }
    else if i == 78 {
      assert BitsOf(ExpTable(79)) == MulByGeneratorOnBits(BitsOf(ExpTable(78)));
    }
    else if i == 79 {
      assert BitsOf(ExpTable(80)) == MulByGeneratorOnBits(BitsOf(ExpTable(79)));
    }
  }

  lemma ExpTableStepBitsBlock20(i: nat)
    requires 80 <= i < 84
    ensures BitsOf(ExpTable(i + 1)) == MulByGeneratorOnBits(BitsOf(ExpTable(i)))
  {
    if i == 80 {
      assert BitsOf(ExpTable(81)) == MulByGeneratorOnBits(BitsOf(ExpTable(80)));
    }
    else if i == 81 {
      assert BitsOf(ExpTable(82)) == MulByGeneratorOnBits(BitsOf(ExpTable(81)));
    }
    else if i == 82 {
      assert BitsOf(ExpTable(83)) == MulByGeneratorOnBits(BitsOf(ExpTable(82)));
    }
    else if i == 83 {
      assert BitsOf(ExpTable(84)) == MulByGeneratorOnBits(BitsOf(ExpTable(83)));
    }
  }

  lemma ExpTableStepBitsBlock21(i: nat)
    requires 84 <= i < 88
    ensures BitsOf(ExpTable(i + 1)) == MulByGeneratorOnBits(BitsOf(ExpTable(i)))
  {
    if i == 84 {
      assert BitsOf(ExpTable(85)) == MulByGeneratorOnBits(BitsOf(ExpTable(84)));
    }
    else if i == 85 {
      assert BitsOf(ExpTable(86)) == MulByGeneratorOnBits(BitsOf(ExpTable(85)));
    }
    else if i == 86 {
      assert BitsOf(ExpTable(87)) == MulByGeneratorOnBits(BitsOf(ExpTable(86)));
    }
    else if i == 87 {
      assert BitsOf(ExpTable(88)) == MulByGeneratorOnBits(BitsOf(ExpTable(87)));
    }
  }

  lemma ExpTableStepBitsBlock22(i: nat)
    requires 88 <= i < 92
    ensures BitsOf(ExpTable(i + 1)) == MulByGeneratorOnBits(BitsOf(ExpTable(i)))
  {
    if i == 88 {
      assert BitsOf(ExpTable(89)) == MulByGeneratorOnBits(BitsOf(ExpTable(88)));
    }
    else if i == 89 {
      assert BitsOf(ExpTable(90)) == MulByGeneratorOnBits(BitsOf(ExpTable(89)));
    }
    else if i == 90 {
      assert BitsOf(ExpTable(91)) == MulByGeneratorOnBits(BitsOf(ExpTable(90)));
    }
    else if i == 91 {
      assert BitsOf(ExpTable(92)) == MulByGeneratorOnBits(BitsOf(ExpTable(91)));
    }
  }

  lemma ExpTableStepBitsBlock23(i: nat)
    requires 92 <= i < 96
    ensures BitsOf(ExpTable(i + 1)) == MulByGeneratorOnBits(BitsOf(ExpTable(i)))
  {
    if i == 92 {
      assert BitsOf(ExpTable(93)) == MulByGeneratorOnBits(BitsOf(ExpTable(92)));
    }
    else if i == 93 {
      assert BitsOf(ExpTable(94)) == MulByGeneratorOnBits(BitsOf(ExpTable(93)));
    }
    else if i == 94 {
      assert BitsOf(ExpTable(95)) == MulByGeneratorOnBits(BitsOf(ExpTable(94)));
    }
    else if i == 95 {
      assert BitsOf(ExpTable(96)) == MulByGeneratorOnBits(BitsOf(ExpTable(95)));
    }
  }

  lemma ExpTableStepBitsBlock24(i: nat)
    requires 96 <= i < 100
    ensures BitsOf(ExpTable(i + 1)) == MulByGeneratorOnBits(BitsOf(ExpTable(i)))
  {
    if i == 96 {
      assert BitsOf(ExpTable(97)) == MulByGeneratorOnBits(BitsOf(ExpTable(96)));
    }
    else if i == 97 {
      assert BitsOf(ExpTable(98)) == MulByGeneratorOnBits(BitsOf(ExpTable(97)));
    }
    else if i == 98 {
      assert BitsOf(ExpTable(99)) == MulByGeneratorOnBits(BitsOf(ExpTable(98)));
    }
    else if i == 99 {
      assert BitsOf(ExpTable(100)) == MulByGeneratorOnBits(BitsOf(ExpTable(99)));
    }
  }

  lemma ExpTableStepBitsBlock25(i: nat)
    requires 100 <= i < 104
    ensures BitsOf(ExpTable(i + 1)) == MulByGeneratorOnBits(BitsOf(ExpTable(i)))
  {
    if i == 100 {
      assert BitsOf(ExpTable(101)) == MulByGeneratorOnBits(BitsOf(ExpTable(100)));
    }
    else if i == 101 {
      assert BitsOf(ExpTable(102)) == MulByGeneratorOnBits(BitsOf(ExpTable(101)));
    }
    else if i == 102 {
      assert BitsOf(ExpTable(103)) == MulByGeneratorOnBits(BitsOf(ExpTable(102)));
    }
    else if i == 103 {
      assert BitsOf(ExpTable(104)) == MulByGeneratorOnBits(BitsOf(ExpTable(103)));
    }
  }

  lemma ExpTableStepBitsBlock26(i: nat)
    requires 104 <= i < 108
    ensures BitsOf(ExpTable(i + 1)) == MulByGeneratorOnBits(BitsOf(ExpTable(i)))
  {
    if i == 104 {
      assert BitsOf(ExpTable(105)) == MulByGeneratorOnBits(BitsOf(ExpTable(104)));
    }
    else if i == 105 {
      assert BitsOf(ExpTable(106)) == MulByGeneratorOnBits(BitsOf(ExpTable(105)));
    }
    else if i == 106 {
      assert BitsOf(ExpTable(107)) == MulByGeneratorOnBits(BitsOf(ExpTable(106)));
    }
    else if i == 107 {
      assert BitsOf(ExpTable(108)) == MulByGeneratorOnBits(BitsOf(ExpTable(107)));
    }
  }

  lemma ExpTableStepBitsBlock27(i: nat)
    requires 108 <= i < 112
    ensures BitsOf(ExpTable(i + 1)) == MulByGeneratorOnBits(BitsOf(ExpTable(i)))
  {
    if i == 108 {
      assert BitsOf(ExpTable(109)) == MulByGeneratorOnBits(BitsOf(ExpTable(108)));
    }
    else if i == 109 {
      assert BitsOf(ExpTable(110)) == MulByGeneratorOnBits(BitsOf(ExpTable(109)));
    }
    else if i == 110 {
      assert BitsOf(ExpTable(111)) == MulByGeneratorOnBits(BitsOf(ExpTable(110)));
    }
    else if i == 111 {
      assert BitsOf(ExpTable(112)) == MulByGeneratorOnBits(BitsOf(ExpTable(111)));
    }
  }

  lemma ExpTableStepBitsBlock28(i: nat)
    requires 112 <= i < 116
    ensures BitsOf(ExpTable(i + 1)) == MulByGeneratorOnBits(BitsOf(ExpTable(i)))
  {
    if i == 112 {
      assert BitsOf(ExpTable(113)) == MulByGeneratorOnBits(BitsOf(ExpTable(112)));
    }
    else if i == 113 {
      assert BitsOf(ExpTable(114)) == MulByGeneratorOnBits(BitsOf(ExpTable(113)));
    }
    else if i == 114 {
      assert BitsOf(ExpTable(115)) == MulByGeneratorOnBits(BitsOf(ExpTable(114)));
    }
    else if i == 115 {
      assert BitsOf(ExpTable(116)) == MulByGeneratorOnBits(BitsOf(ExpTable(115)));
    }
  }

  lemma ExpTableStepBitsBlock29(i: nat)
    requires 116 <= i < 120
    ensures BitsOf(ExpTable(i + 1)) == MulByGeneratorOnBits(BitsOf(ExpTable(i)))
  {
    if i == 116 {
      assert BitsOf(ExpTable(117)) == MulByGeneratorOnBits(BitsOf(ExpTable(116)));
    }
    else if i == 117 {
      assert BitsOf(ExpTable(118)) == MulByGeneratorOnBits(BitsOf(ExpTable(117)));
    }
    else if i == 118 {
      assert BitsOf(ExpTable(119)) == MulByGeneratorOnBits(BitsOf(ExpTable(118)));
    }
    else if i == 119 {
      assert BitsOf(ExpTable(120)) == MulByGeneratorOnBits(BitsOf(ExpTable(119)));
    }
  }

  lemma ExpTableStepBitsBlock30(i: nat)
    requires 120 <= i < 124
    ensures BitsOf(ExpTable(i + 1)) == MulByGeneratorOnBits(BitsOf(ExpTable(i)))
  {
    if i == 120 {
      assert BitsOf(ExpTable(121)) == MulByGeneratorOnBits(BitsOf(ExpTable(120)));
    }
    else if i == 121 {
      assert BitsOf(ExpTable(122)) == MulByGeneratorOnBits(BitsOf(ExpTable(121)));
    }
    else if i == 122 {
      assert BitsOf(ExpTable(123)) == MulByGeneratorOnBits(BitsOf(ExpTable(122)));
    }
    else if i == 123 {
      assert BitsOf(ExpTable(124)) == MulByGeneratorOnBits(BitsOf(ExpTable(123)));
    }
  }

  lemma ExpTableStepBitsBlock31(i: nat)
    requires 124 <= i < 128
    ensures BitsOf(ExpTable(i + 1)) == MulByGeneratorOnBits(BitsOf(ExpTable(i)))
  {
    if i == 124 {
      assert BitsOf(ExpTable(125)) == MulByGeneratorOnBits(BitsOf(ExpTable(124)));
    }
    else if i == 125 {
      assert BitsOf(ExpTable(126)) == MulByGeneratorOnBits(BitsOf(ExpTable(125)));
    }
    else if i == 126 {
      assert BitsOf(ExpTable(127)) == MulByGeneratorOnBits(BitsOf(ExpTable(126)));
    }
    else if i == 127 {
      assert BitsOf(ExpTable(128)) == MulByGeneratorOnBits(BitsOf(ExpTable(127)));
    }
  }

  lemma ExpTableStepBitsBlock32(i: nat)
    requires 128 <= i < 132
    ensures BitsOf(ExpTable(i + 1)) == MulByGeneratorOnBits(BitsOf(ExpTable(i)))
  {
    if i == 128 {
      assert BitsOf(ExpTable(129)) == MulByGeneratorOnBits(BitsOf(ExpTable(128)));
    }
    else if i == 129 {
      assert BitsOf(ExpTable(130)) == MulByGeneratorOnBits(BitsOf(ExpTable(129)));
    }
    else if i == 130 {
      assert BitsOf(ExpTable(131)) == MulByGeneratorOnBits(BitsOf(ExpTable(130)));
    }
    else if i == 131 {
      assert BitsOf(ExpTable(132)) == MulByGeneratorOnBits(BitsOf(ExpTable(131)));
    }
  }

  lemma ExpTableStepBitsBlock33(i: nat)
    requires 132 <= i < 136
    ensures BitsOf(ExpTable(i + 1)) == MulByGeneratorOnBits(BitsOf(ExpTable(i)))
  {
    if i == 132 {
      assert BitsOf(ExpTable(133)) == MulByGeneratorOnBits(BitsOf(ExpTable(132)));
    }
    else if i == 133 {
      assert BitsOf(ExpTable(134)) == MulByGeneratorOnBits(BitsOf(ExpTable(133)));
    }
    else if i == 134 {
      assert BitsOf(ExpTable(135)) == MulByGeneratorOnBits(BitsOf(ExpTable(134)));
    }
    else if i == 135 {
      assert BitsOf(ExpTable(136)) == MulByGeneratorOnBits(BitsOf(ExpTable(135)));
    }
  }

  lemma ExpTableStepBitsBlock34(i: nat)
    requires 136 <= i < 140
    ensures BitsOf(ExpTable(i + 1)) == MulByGeneratorOnBits(BitsOf(ExpTable(i)))
  {
    if i == 136 {
      assert BitsOf(ExpTable(137)) == MulByGeneratorOnBits(BitsOf(ExpTable(136)));
    }
    else if i == 137 {
      assert BitsOf(ExpTable(138)) == MulByGeneratorOnBits(BitsOf(ExpTable(137)));
    }
    else if i == 138 {
      assert BitsOf(ExpTable(139)) == MulByGeneratorOnBits(BitsOf(ExpTable(138)));
    }
    else if i == 139 {
      assert BitsOf(ExpTable(140)) == MulByGeneratorOnBits(BitsOf(ExpTable(139)));
    }
  }

  lemma ExpTableStepBitsBlock35(i: nat)
    requires 140 <= i < 144
    ensures BitsOf(ExpTable(i + 1)) == MulByGeneratorOnBits(BitsOf(ExpTable(i)))
  {
    if i == 140 {
      assert BitsOf(ExpTable(141)) == MulByGeneratorOnBits(BitsOf(ExpTable(140)));
    }
    else if i == 141 {
      assert BitsOf(ExpTable(142)) == MulByGeneratorOnBits(BitsOf(ExpTable(141)));
    }
    else if i == 142 {
      assert BitsOf(ExpTable(143)) == MulByGeneratorOnBits(BitsOf(ExpTable(142)));
    }
    else if i == 143 {
      assert BitsOf(ExpTable(144)) == MulByGeneratorOnBits(BitsOf(ExpTable(143)));
    }
  }

  lemma ExpTableStepBitsBlock36(i: nat)
    requires 144 <= i < 148
    ensures BitsOf(ExpTable(i + 1)) == MulByGeneratorOnBits(BitsOf(ExpTable(i)))
  {
    if i == 144 {
      assert BitsOf(ExpTable(145)) == MulByGeneratorOnBits(BitsOf(ExpTable(144)));
    }
    else if i == 145 {
      assert BitsOf(ExpTable(146)) == MulByGeneratorOnBits(BitsOf(ExpTable(145)));
    }
    else if i == 146 {
      assert BitsOf(ExpTable(147)) == MulByGeneratorOnBits(BitsOf(ExpTable(146)));
    }
    else if i == 147 {
      assert BitsOf(ExpTable(148)) == MulByGeneratorOnBits(BitsOf(ExpTable(147)));
    }
  }

  lemma ExpTableStepBitsBlock37(i: nat)
    requires 148 <= i < 152
    ensures BitsOf(ExpTable(i + 1)) == MulByGeneratorOnBits(BitsOf(ExpTable(i)))
  {
    if i == 148 {
      assert BitsOf(ExpTable(149)) == MulByGeneratorOnBits(BitsOf(ExpTable(148)));
    }
    else if i == 149 {
      assert BitsOf(ExpTable(150)) == MulByGeneratorOnBits(BitsOf(ExpTable(149)));
    }
    else if i == 150 {
      assert BitsOf(ExpTable(151)) == MulByGeneratorOnBits(BitsOf(ExpTable(150)));
    }
    else if i == 151 {
      assert BitsOf(ExpTable(152)) == MulByGeneratorOnBits(BitsOf(ExpTable(151)));
    }
  }

  lemma ExpTableStepBitsBlock38(i: nat)
    requires 152 <= i < 156
    ensures BitsOf(ExpTable(i + 1)) == MulByGeneratorOnBits(BitsOf(ExpTable(i)))
  {
    if i == 152 {
      assert BitsOf(ExpTable(153)) == MulByGeneratorOnBits(BitsOf(ExpTable(152)));
    }
    else if i == 153 {
      assert BitsOf(ExpTable(154)) == MulByGeneratorOnBits(BitsOf(ExpTable(153)));
    }
    else if i == 154 {
      assert BitsOf(ExpTable(155)) == MulByGeneratorOnBits(BitsOf(ExpTable(154)));
    }
    else if i == 155 {
      assert BitsOf(ExpTable(156)) == MulByGeneratorOnBits(BitsOf(ExpTable(155)));
    }
  }

  lemma ExpTableStepBitsBlock39(i: nat)
    requires 156 <= i < 160
    ensures BitsOf(ExpTable(i + 1)) == MulByGeneratorOnBits(BitsOf(ExpTable(i)))
  {
    if i == 156 {
      assert BitsOf(ExpTable(157)) == MulByGeneratorOnBits(BitsOf(ExpTable(156)));
    }
    else if i == 157 {
      assert BitsOf(ExpTable(158)) == MulByGeneratorOnBits(BitsOf(ExpTable(157)));
    }
    else if i == 158 {
      assert BitsOf(ExpTable(159)) == MulByGeneratorOnBits(BitsOf(ExpTable(158)));
    }
    else if i == 159 {
      assert BitsOf(ExpTable(160)) == MulByGeneratorOnBits(BitsOf(ExpTable(159)));
    }
  }

  lemma ExpTableStepBitsBlock40(i: nat)
    requires 160 <= i < 164
    ensures BitsOf(ExpTable(i + 1)) == MulByGeneratorOnBits(BitsOf(ExpTable(i)))
  {
    if i == 160 {
      assert BitsOf(ExpTable(161)) == MulByGeneratorOnBits(BitsOf(ExpTable(160)));
    }
    else if i == 161 {
      assert BitsOf(ExpTable(162)) == MulByGeneratorOnBits(BitsOf(ExpTable(161)));
    }
    else if i == 162 {
      assert BitsOf(ExpTable(163)) == MulByGeneratorOnBits(BitsOf(ExpTable(162)));
    }
    else if i == 163 {
      assert BitsOf(ExpTable(164)) == MulByGeneratorOnBits(BitsOf(ExpTable(163)));
    }
  }

  lemma ExpTableStepBitsBlock41(i: nat)
    requires 164 <= i < 168
    ensures BitsOf(ExpTable(i + 1)) == MulByGeneratorOnBits(BitsOf(ExpTable(i)))
  {
    if i == 164 {
      assert BitsOf(ExpTable(165)) == MulByGeneratorOnBits(BitsOf(ExpTable(164)));
    }
    else if i == 165 {
      assert BitsOf(ExpTable(166)) == MulByGeneratorOnBits(BitsOf(ExpTable(165)));
    }
    else if i == 166 {
      assert BitsOf(ExpTable(167)) == MulByGeneratorOnBits(BitsOf(ExpTable(166)));
    }
    else if i == 167 {
      assert BitsOf(ExpTable(168)) == MulByGeneratorOnBits(BitsOf(ExpTable(167)));
    }
  }

  lemma ExpTableStepBitsBlock42(i: nat)
    requires 168 <= i < 172
    ensures BitsOf(ExpTable(i + 1)) == MulByGeneratorOnBits(BitsOf(ExpTable(i)))
  {
    if i == 168 {
      assert BitsOf(ExpTable(169)) == MulByGeneratorOnBits(BitsOf(ExpTable(168)));
    }
    else if i == 169 {
      assert BitsOf(ExpTable(170)) == MulByGeneratorOnBits(BitsOf(ExpTable(169)));
    }
    else if i == 170 {
      assert BitsOf(ExpTable(171)) == MulByGeneratorOnBits(BitsOf(ExpTable(170)));
    }
    else if i == 171 {
      assert BitsOf(ExpTable(172)) == MulByGeneratorOnBits(BitsOf(ExpTable(171)));
    }
  }

  lemma ExpTableStepBitsBlock43(i: nat)
    requires 172 <= i < 176
    ensures BitsOf(ExpTable(i + 1)) == MulByGeneratorOnBits(BitsOf(ExpTable(i)))
  {
    if i == 172 {
      assert BitsOf(ExpTable(173)) == MulByGeneratorOnBits(BitsOf(ExpTable(172)));
    }
    else if i == 173 {
      assert BitsOf(ExpTable(174)) == MulByGeneratorOnBits(BitsOf(ExpTable(173)));
    }
    else if i == 174 {
      assert BitsOf(ExpTable(175)) == MulByGeneratorOnBits(BitsOf(ExpTable(174)));
    }
    else if i == 175 {
      assert BitsOf(ExpTable(176)) == MulByGeneratorOnBits(BitsOf(ExpTable(175)));
    }
  }

  lemma ExpTableStepBitsBlock44(i: nat)
    requires 176 <= i < 180
    ensures BitsOf(ExpTable(i + 1)) == MulByGeneratorOnBits(BitsOf(ExpTable(i)))
  {
    if i == 176 {
      assert BitsOf(ExpTable(177)) == MulByGeneratorOnBits(BitsOf(ExpTable(176)));
    }
    else if i == 177 {
      assert BitsOf(ExpTable(178)) == MulByGeneratorOnBits(BitsOf(ExpTable(177)));
    }
    else if i == 178 {
      assert BitsOf(ExpTable(179)) == MulByGeneratorOnBits(BitsOf(ExpTable(178)));
    }
    else if i == 179 {
      assert BitsOf(ExpTable(180)) == MulByGeneratorOnBits(BitsOf(ExpTable(179)));
    }
  }

  lemma ExpTableStepBitsBlock45(i: nat)
    requires 180 <= i < 184
    ensures BitsOf(ExpTable(i + 1)) == MulByGeneratorOnBits(BitsOf(ExpTable(i)))
  {
    if i == 180 {
      assert BitsOf(ExpTable(181)) == MulByGeneratorOnBits(BitsOf(ExpTable(180)));
    }
    else if i == 181 {
      assert BitsOf(ExpTable(182)) == MulByGeneratorOnBits(BitsOf(ExpTable(181)));
    }
    else if i == 182 {
      assert BitsOf(ExpTable(183)) == MulByGeneratorOnBits(BitsOf(ExpTable(182)));
    }
    else if i == 183 {
      assert BitsOf(ExpTable(184)) == MulByGeneratorOnBits(BitsOf(ExpTable(183)));
    }
  }

  lemma ExpTableStepBitsBlock46(i: nat)
    requires 184 <= i < 188
    ensures BitsOf(ExpTable(i + 1)) == MulByGeneratorOnBits(BitsOf(ExpTable(i)))
  {
    if i == 184 {
      assert BitsOf(ExpTable(185)) == MulByGeneratorOnBits(BitsOf(ExpTable(184)));
    }
    else if i == 185 {
      assert BitsOf(ExpTable(186)) == MulByGeneratorOnBits(BitsOf(ExpTable(185)));
    }
    else if i == 186 {
      assert BitsOf(ExpTable(187)) == MulByGeneratorOnBits(BitsOf(ExpTable(186)));
    }
    else if i == 187 {
      assert BitsOf(ExpTable(188)) == MulByGeneratorOnBits(BitsOf(ExpTable(187)));
    }
  }

  lemma ExpTableStepBitsBlock47(i: nat)
    requires 188 <= i < 192
    ensures BitsOf(ExpTable(i + 1)) == MulByGeneratorOnBits(BitsOf(ExpTable(i)))
  {
    if i == 188 {
      assert BitsOf(ExpTable(189)) == MulByGeneratorOnBits(BitsOf(ExpTable(188)));
    }
    else if i == 189 {
      assert BitsOf(ExpTable(190)) == MulByGeneratorOnBits(BitsOf(ExpTable(189)));
    }
    else if i == 190 {
      assert BitsOf(ExpTable(191)) == MulByGeneratorOnBits(BitsOf(ExpTable(190)));
    }
    else if i == 191 {
      assert BitsOf(ExpTable(192)) == MulByGeneratorOnBits(BitsOf(ExpTable(191)));
    }
  }

  lemma ExpTableStepBitsBlock48(i: nat)
    requires 192 <= i < 196
    ensures BitsOf(ExpTable(i + 1)) == MulByGeneratorOnBits(BitsOf(ExpTable(i)))
  {
    if i == 192 {
      assert BitsOf(ExpTable(193)) == MulByGeneratorOnBits(BitsOf(ExpTable(192)));
    }
    else if i == 193 {
      assert BitsOf(ExpTable(194)) == MulByGeneratorOnBits(BitsOf(ExpTable(193)));
    }
    else if i == 194 {
      assert BitsOf(ExpTable(195)) == MulByGeneratorOnBits(BitsOf(ExpTable(194)));
    }
    else if i == 195 {
      assert BitsOf(ExpTable(196)) == MulByGeneratorOnBits(BitsOf(ExpTable(195)));
    }
  }

  lemma ExpTableStepBitsBlock49(i: nat)
    requires 196 <= i < 200
    ensures BitsOf(ExpTable(i + 1)) == MulByGeneratorOnBits(BitsOf(ExpTable(i)))
  {
    if i == 196 {
      assert BitsOf(ExpTable(197)) == MulByGeneratorOnBits(BitsOf(ExpTable(196)));
    }
    else if i == 197 {
      assert BitsOf(ExpTable(198)) == MulByGeneratorOnBits(BitsOf(ExpTable(197)));
    }
    else if i == 198 {
      assert BitsOf(ExpTable(199)) == MulByGeneratorOnBits(BitsOf(ExpTable(198)));
    }
    else if i == 199 {
      assert BitsOf(ExpTable(200)) == MulByGeneratorOnBits(BitsOf(ExpTable(199)));
    }
  }

  lemma ExpTableStepBitsBlock50(i: nat)
    requires 200 <= i < 204
    ensures BitsOf(ExpTable(i + 1)) == MulByGeneratorOnBits(BitsOf(ExpTable(i)))
  {
    if i == 200 {
      assert BitsOf(ExpTable(201)) == MulByGeneratorOnBits(BitsOf(ExpTable(200)));
    }
    else if i == 201 {
      assert BitsOf(ExpTable(202)) == MulByGeneratorOnBits(BitsOf(ExpTable(201)));
    }
    else if i == 202 {
      assert BitsOf(ExpTable(203)) == MulByGeneratorOnBits(BitsOf(ExpTable(202)));
    }
    else if i == 203 {
      assert BitsOf(ExpTable(204)) == MulByGeneratorOnBits(BitsOf(ExpTable(203)));
    }
  }

  lemma ExpTableStepBitsBlock51(i: nat)
    requires 204 <= i < 208
    ensures BitsOf(ExpTable(i + 1)) == MulByGeneratorOnBits(BitsOf(ExpTable(i)))
  {
    if i == 204 {
      assert BitsOf(ExpTable(205)) == MulByGeneratorOnBits(BitsOf(ExpTable(204)));
    }
    else if i == 205 {
      assert BitsOf(ExpTable(206)) == MulByGeneratorOnBits(BitsOf(ExpTable(205)));
    }
    else if i == 206 {
      assert BitsOf(ExpTable(207)) == MulByGeneratorOnBits(BitsOf(ExpTable(206)));
    }
    else if i == 207 {
      assert BitsOf(ExpTable(208)) == MulByGeneratorOnBits(BitsOf(ExpTable(207)));
    }
  }

  lemma ExpTableStepBitsBlock52(i: nat)
    requires 208 <= i < 212
    ensures BitsOf(ExpTable(i + 1)) == MulByGeneratorOnBits(BitsOf(ExpTable(i)))
  {
    if i == 208 {
      assert BitsOf(ExpTable(209)) == MulByGeneratorOnBits(BitsOf(ExpTable(208)));
    }
    else if i == 209 {
      assert BitsOf(ExpTable(210)) == MulByGeneratorOnBits(BitsOf(ExpTable(209)));
    }
    else if i == 210 {
      assert BitsOf(ExpTable(211)) == MulByGeneratorOnBits(BitsOf(ExpTable(210)));
    }
    else if i == 211 {
      assert BitsOf(ExpTable(212)) == MulByGeneratorOnBits(BitsOf(ExpTable(211)));
    }
  }

  lemma ExpTableStepBitsBlock53(i: nat)
    requires 212 <= i < 216
    ensures BitsOf(ExpTable(i + 1)) == MulByGeneratorOnBits(BitsOf(ExpTable(i)))
  {
    if i == 212 {
      assert BitsOf(ExpTable(213)) == MulByGeneratorOnBits(BitsOf(ExpTable(212)));
    }
    else if i == 213 {
      assert BitsOf(ExpTable(214)) == MulByGeneratorOnBits(BitsOf(ExpTable(213)));
    }
    else if i == 214 {
      assert BitsOf(ExpTable(215)) == MulByGeneratorOnBits(BitsOf(ExpTable(214)));
    }
    else if i == 215 {
      assert BitsOf(ExpTable(216)) == MulByGeneratorOnBits(BitsOf(ExpTable(215)));
    }
  }

  lemma ExpTableStepBitsBlock54(i: nat)
    requires 216 <= i < 220
    ensures BitsOf(ExpTable(i + 1)) == MulByGeneratorOnBits(BitsOf(ExpTable(i)))
  {
    if i == 216 {
      assert BitsOf(ExpTable(217)) == MulByGeneratorOnBits(BitsOf(ExpTable(216)));
    }
    else if i == 217 {
      assert BitsOf(ExpTable(218)) == MulByGeneratorOnBits(BitsOf(ExpTable(217)));
    }
    else if i == 218 {
      assert BitsOf(ExpTable(219)) == MulByGeneratorOnBits(BitsOf(ExpTable(218)));
    }
    else if i == 219 {
      assert BitsOf(ExpTable(220)) == MulByGeneratorOnBits(BitsOf(ExpTable(219)));
    }
  }

  lemma ExpTableStepBitsBlock55(i: nat)
    requires 220 <= i < 224
    ensures BitsOf(ExpTable(i + 1)) == MulByGeneratorOnBits(BitsOf(ExpTable(i)))
  {
    if i == 220 {
      assert BitsOf(ExpTable(221)) == MulByGeneratorOnBits(BitsOf(ExpTable(220)));
    }
    else if i == 221 {
      assert BitsOf(ExpTable(222)) == MulByGeneratorOnBits(BitsOf(ExpTable(221)));
    }
    else if i == 222 {
      assert BitsOf(ExpTable(223)) == MulByGeneratorOnBits(BitsOf(ExpTable(222)));
    }
    else if i == 223 {
      assert BitsOf(ExpTable(224)) == MulByGeneratorOnBits(BitsOf(ExpTable(223)));
    }
  }

  lemma ExpTableStepBitsBlock56(i: nat)
    requires 224 <= i < 228
    ensures BitsOf(ExpTable(i + 1)) == MulByGeneratorOnBits(BitsOf(ExpTable(i)))
  {
    if i == 224 {
      assert BitsOf(ExpTable(225)) == MulByGeneratorOnBits(BitsOf(ExpTable(224)));
    }
    else if i == 225 {
      assert BitsOf(ExpTable(226)) == MulByGeneratorOnBits(BitsOf(ExpTable(225)));
    }
    else if i == 226 {
      assert BitsOf(ExpTable(227)) == MulByGeneratorOnBits(BitsOf(ExpTable(226)));
    }
    else if i == 227 {
      assert BitsOf(ExpTable(228)) == MulByGeneratorOnBits(BitsOf(ExpTable(227)));
    }
  }

  lemma ExpTableStepBitsBlock57(i: nat)
    requires 228 <= i < 232
    ensures BitsOf(ExpTable(i + 1)) == MulByGeneratorOnBits(BitsOf(ExpTable(i)))
  {
    if i == 228 {
      assert BitsOf(ExpTable(229)) == MulByGeneratorOnBits(BitsOf(ExpTable(228)));
    }
    else if i == 229 {
      assert BitsOf(ExpTable(230)) == MulByGeneratorOnBits(BitsOf(ExpTable(229)));
    }
    else if i == 230 {
      assert BitsOf(ExpTable(231)) == MulByGeneratorOnBits(BitsOf(ExpTable(230)));
    }
    else if i == 231 {
      assert BitsOf(ExpTable(232)) == MulByGeneratorOnBits(BitsOf(ExpTable(231)));
    }
  }

  lemma ExpTableStepBitsBlock58(i: nat)
    requires 232 <= i < 236
    ensures BitsOf(ExpTable(i + 1)) == MulByGeneratorOnBits(BitsOf(ExpTable(i)))
  {
    if i == 232 {
      assert BitsOf(ExpTable(233)) == MulByGeneratorOnBits(BitsOf(ExpTable(232)));
    }
    else if i == 233 {
      assert BitsOf(ExpTable(234)) == MulByGeneratorOnBits(BitsOf(ExpTable(233)));
    }
    else if i == 234 {
      assert BitsOf(ExpTable(235)) == MulByGeneratorOnBits(BitsOf(ExpTable(234)));
    }
    else if i == 235 {
      assert BitsOf(ExpTable(236)) == MulByGeneratorOnBits(BitsOf(ExpTable(235)));
    }
  }

  lemma ExpTableStepBitsBlock59(i: nat)
    requires 236 <= i < 240
    ensures BitsOf(ExpTable(i + 1)) == MulByGeneratorOnBits(BitsOf(ExpTable(i)))
  {
    if i == 236 {
      assert BitsOf(ExpTable(237)) == MulByGeneratorOnBits(BitsOf(ExpTable(236)));
    }
    else if i == 237 {
      assert BitsOf(ExpTable(238)) == MulByGeneratorOnBits(BitsOf(ExpTable(237)));
    }
    else if i == 238 {
      assert BitsOf(ExpTable(239)) == MulByGeneratorOnBits(BitsOf(ExpTable(238)));
    }
    else if i == 239 {
      assert BitsOf(ExpTable(240)) == MulByGeneratorOnBits(BitsOf(ExpTable(239)));
    }
  }

  lemma ExpTableStepBitsBlock60(i: nat)
    requires 240 <= i < 244
    ensures BitsOf(ExpTable(i + 1)) == MulByGeneratorOnBits(BitsOf(ExpTable(i)))
  {
    if i == 240 {
      assert BitsOf(ExpTable(241)) == MulByGeneratorOnBits(BitsOf(ExpTable(240)));
    }
    else if i == 241 {
      assert BitsOf(ExpTable(242)) == MulByGeneratorOnBits(BitsOf(ExpTable(241)));
    }
    else if i == 242 {
      assert BitsOf(ExpTable(243)) == MulByGeneratorOnBits(BitsOf(ExpTable(242)));
    }
    else if i == 243 {
      assert BitsOf(ExpTable(244)) == MulByGeneratorOnBits(BitsOf(ExpTable(243)));
    }
  }

  lemma ExpTableStepBitsBlock61(i: nat)
    requires 244 <= i < 248
    ensures BitsOf(ExpTable(i + 1)) == MulByGeneratorOnBits(BitsOf(ExpTable(i)))
  {
    if i == 244 {
      assert BitsOf(ExpTable(245)) == MulByGeneratorOnBits(BitsOf(ExpTable(244)));
    }
    else if i == 245 {
      assert BitsOf(ExpTable(246)) == MulByGeneratorOnBits(BitsOf(ExpTable(245)));
    }
    else if i == 246 {
      assert BitsOf(ExpTable(247)) == MulByGeneratorOnBits(BitsOf(ExpTable(246)));
    }
    else if i == 247 {
      assert BitsOf(ExpTable(248)) == MulByGeneratorOnBits(BitsOf(ExpTable(247)));
    }
  }

  lemma ExpTableStepBitsBlock62(i: nat)
    requires 248 <= i < 252
    ensures BitsOf(ExpTable(i + 1)) == MulByGeneratorOnBits(BitsOf(ExpTable(i)))
  {
    if i == 248 {
      assert BitsOf(ExpTable(249)) == MulByGeneratorOnBits(BitsOf(ExpTable(248)));
    }
    else if i == 249 {
      assert BitsOf(ExpTable(250)) == MulByGeneratorOnBits(BitsOf(ExpTable(249)));
    }
    else if i == 250 {
      assert BitsOf(ExpTable(251)) == MulByGeneratorOnBits(BitsOf(ExpTable(250)));
    }
    else if i == 251 {
      assert BitsOf(ExpTable(252)) == MulByGeneratorOnBits(BitsOf(ExpTable(251)));
    }
  }

  lemma ExpTableStepBitsBlock63(i: nat)
    requires 252 <= i < 254
    ensures BitsOf(ExpTable(i + 1)) == MulByGeneratorOnBits(BitsOf(ExpTable(i)))
  {
    if i == 252 {
      assert BitsOf(ExpTable(253)) == MulByGeneratorOnBits(BitsOf(ExpTable(252)));
    }
    else if i == 253 {
      assert BitsOf(ExpTable(254)) == MulByGeneratorOnBits(BitsOf(ExpTable(253)));
    }
  }

  /** The logarithm table inverts the exponent table.
      Checked for every exponent. */
  lemma LogOfExpTable(i: nat)
    requires i < GROUP_ORDER
    ensures ExpTable(i) != 0 && LogTable(ExpTable(i)) == i
  {
    if i < 8 { LogOfExpTableBlock0(i); }
    else if i < 16 { LogOfExpTableBlock1(i); }
    else if i < 24 { LogOfExpTableBlock2(i); }
    else if i < 32 { LogOfExpTableBlock3(i); }
    else if i < 40 { LogOfExpTableBlock4(i); }
    else if i < 48 { LogOfExpTableBlock5(i); }
    else if i < 56 { LogOfExpTableBlock6(i); }
    else if i < 64 { LogOfExpTableBlock7(i); }
    else if i < 72 { LogOfExpTableBlock8(i); }
    else if i < 80 { LogOfExpTableBlock9(i); }
    else if i < 88 { LogOfExpTableBlock10(i); }
    else if i < 96 { LogOfExpTableBlock11(i); }
    else if i < 104 { LogOfExpTableBlock12(i); }
    else if i < 112 { LogOfExpTableBlock13(i); }
    else if i < 120 { LogOfExpTableBlock14(i); }
    else if i < 128 { LogOfExpTableBlock15(i); }
    else if i < 136 { LogOfExpTableBlock16(i); }
    else if i < 144 { LogOfExpTableBlock17(i); }
    else if i < 152 { LogOfExpTableBlock18(i); }
    else if i < 160 { LogOfExpTableBlock19(i); }
    else if i < 168 { LogOfExpTableBlock20(i); }
    else if i < 176 { LogOfExpTableBlock21(i); }
    else if i < 184 { LogOfExpTableBlock22(i); }
    else if i < 192 { LogOfExpTableBlock23(i); }
    else if i < 200 { LogOfExpTableBlock24(i); }
    else if i < 208 { LogOfExpTableBlock25(i); }
    else if i < 216 { LogOfExpTableBlock26(i); }
    else if i < 224 { LogOfExpTableBlock27(i); }
    else if i < 232 { LogOfExpTableBlock28(i); }
    else if i < 240 { LogOfExpTableBlock29(i); }
    else if i < 248 { LogOfExpTableBlock30(i); }
    else { LogOfExpTableBlock31(i); }
  }

  lemma LogOfExpTableBlock0(i: nat)
    requires 0 <= i < 8
    ensures ExpTable(i) != 0 && LogTable(ExpTable(i)) == i
  {
    if i == 0 {
      assert ExpTable(0) == 1 && LogTable(1) == 0;
    }
    else if i == 1 {
      assert ExpTable(1) == 3 && LogTable(3) == 1;
    }
    else if i == 2 {
      assert ExpTable(2) == 5 && LogTable(5) == 2;
    }
    else if i == 3 {
      assert ExpTable(3) == 15 && LogTable(15) == 3;
    }
    else if i == 4 {
      assert ExpTable(4) == 17 && LogTable(17) == 4;
    }
    else if i == 5 {
      assert ExpTable(5) == 51 && LogTable(51) == 5;
    }
    else if i == 6 {
      assert ExpTable(6) == 85 && LogTable(85) == 6;
    }
    else if i == 7 {
      assert ExpTable(7) == 255 && LogTable(255) == 7;
    }
  }

  lemma LogOfExpTableBlock1(i: nat)
    requires 8 <= i < 16
    ensures ExpTable(i) != 0 && LogTable(ExpTable(i)) == i
  {
    if i == 8 {
      assert ExpTable(8) == 26 && LogTable(26) == 8;
    }
    else if i == 9 {
      assert ExpTable(9) == 46 && LogTable(46) == 9;
    }
    else if i == 10 {
      assert ExpTable(10) == 114 && LogTable(114) == 10;
    }
    else if i == 11 {
      assert ExpTable(11) == 150 && LogTable(150) == 11;
    }
    else if i == 12 {
      assert ExpTable(12) == 161 && LogTable(161) == 12;
    }
    else if i == 13 {
      assert ExpTable(13) == 248 && LogTable(248) == 13;
    }
    else if i == 14 {
      assert ExpTable(14) == 19 && LogTable(19) == 14;
    }
    else if i == 15 {
      assert ExpTable(15) == 53 && LogTable(53) == 15;
    }
  }

  lemma LogOfExpTableBlock2(i: nat)
    requires 16 <= i < 24
    ensures ExpTable(i) != 0 && LogTable(ExpTable(i)) == i
  {
    if i == 16 {
      assert ExpTable(16) == 95 && LogTable(95) == 16;
    }
    else if i == 17 {
      assert ExpTable(17) == 225 && LogTable(225) == 17;
    }
    else if i == 18 {
      assert ExpTable(18) == 56 && LogTable(56) == 18;
    }
    else if i == 19 {
      assert ExpTable(19) == 72 && LogTable(72) == 19;
    }
    else if i == 20 {
      assert ExpTable(20) == 216 && LogTable(216) == 20;
    }
    else if i == 21 {
      assert ExpTable(21) == 115 && LogTable(115) == 21;
    }
    else if i == 22 {
      assert ExpTable(22) == 149 && LogTable(149) == 22;
    }
    else if i == 23 {
      assert ExpTable(23) == 164 && LogTable(164) == 23;
    }
  }

  lemma LogOfExpTableBlock3(i: nat)
    requires 24 <= i < 32
    ensures ExpTable(i) != 0 && LogTable(ExpTable(i)) == i
  {
    if i == 24 {
      assert ExpTable(24) == 247 && LogTable(247) == 24;
    }
    else if i == 25 {
      assert ExpTable(25) == 2 && LogTable(2) == 25;
    }
    else if i == 26 {
      assert ExpTable(26) == 6 && LogTable(6) == 26;
    }
    else if i == 27 {
      assert ExpTable(27) == 10 && LogTable(10) == 27;
    }
    else if i == 28 {
      assert ExpTable(28) == 30 && LogTable(30) == 28;
    }
    else if i == 29 {
      assert ExpTable(29) == 34 && LogTable(34) == 29;
    }
    else if i == 30 {
      assert ExpTable(30) == 102 && LogTable(102) == 30;
    }
    else if i == 31 {
      assert ExpTable(31) == 170 && LogTable(170) == 31;
    }
  }

  lemma LogOfExpTableBlock4(i: nat)
    requires 32 <= i < 40
    ensures ExpTable(i) != 0 && LogTable(ExpTable(i)) == i
  {
    if i == 32 {
      assert ExpTable(32) == 229 && LogTable(229) == 32;
    }
    else if i == 33 {
      assert ExpTable(33) == 52 && LogTable(52) == 33;
    }
    else if i == 34 {
      assert ExpTable(34) == 92 && LogTable(92) == 34;
    }
    else if i == 35 {
      assert ExpTable(35) == 228 && LogTable(228) == 35;
    }
    else if i == 36 {
      assert ExpTable(36) == 55 && LogTable(55) == 36;
    }
    else if i == 37 {
      assert ExpTable(37) == 89 && LogTable(89) == 37;
    }
    else if i == 38 {
      assert ExpTable(38) == 235 && LogTable(235) == 38;
    }
    else if i == 39 {
      assert ExpTable(39) == 38 && LogTable(38) == 39;
    }
  }

  lemma LogOfExpTableBlock5(i: nat)
    requires 40 <= i < 48
    ensures ExpTable(i) != 0 && LogTable(ExpTable(i)) == i
  {
    if i == 40 {
      assert ExpTable(40) == 106 && LogTable(106) == 40;
    }
    else if i == 41 {
      assert ExpTable(41) == 190 && LogTable(190) == 41;
    }
    else if i == 42 {
      assert ExpTable(42) == 217 && LogTable(217) == 42;
    }
    else if i == 43 {
      assert ExpTable(43) == 112 && LogTable(112) == 43;
    }
    else if i == 44 {
      assert ExpTable(44) == 144 && LogTable(144) == 44;
    }
    else if i == 45 {
      assert ExpTable(45) == 171 && LogTable(171) == 45;
    }
    else if i == 46 {
      assert ExpTable(46) == 230 && LogTable(230) == 46;
    }
    else if i == 47 {
      assert ExpTable(47) == 49 && LogTable(49) == 47;
    }
  }

  lemma LogOfExpTableBlock6(i: nat)
    requires 48 <= i < 56
    ensures ExpTable(i) != 0 && LogTable(ExpTable(i)) == i
  {
    if i == 48 {
      assert ExpTable(48) == 83 && LogTable(83) == 48;
    }
    else if i == 49 {
      assert ExpTable(49) == 245 && LogTable(245) == 49;
    }
    else if i == 50 {
      assert ExpTable(50) == 4 && LogTable(4) == 50;
    }
    else if i == 51 {
      assert ExpTable(51) == 12 && LogTable(12) == 51;
    }
    else if i == 52 {
      assert ExpTable(52) == 20 && LogTable(20) == 52;
    }
    else if i == 53 {
      assert ExpTable(53) == 60 && LogTable(60) == 53;
    }
    else if i == 54 {
      assert ExpTable(54) == 68 && LogTable(68) == 54;
    }
    else if i == 55 {
      assert ExpTable(55) == 204 && LogTable(204) == 55;
    }
  }

  lemma LogOfExpTableBlock7(i: nat)
    requires 56 <= i < 64
    ensures ExpTable(i) != 0 && LogTable(ExpTable(i)) == i
  {
    if i == 56 {
      assert ExpTable(56) == 79 && LogTable(79) == 56;
    }
    else if i == 57 {
      assert ExpTable(57) == 209 && LogTable(209) == 57;
    }
    else if i == 58 {
      assert ExpTable(58) == 104 && LogTable(104) == 58;
    }
    else if i == 59 {
      assert ExpTable(59) == 184 && LogTable(184) == 59;
    }
    else if i == 60 {
      assert ExpTable(60) == 211 && LogTable(211) == 60;
    }
    else if i == 61 {
      assert ExpTable(61) == 110 && LogTable(110) == 61;
    }
    else if i == 62 {
      assert ExpTable(62) == 178 && LogTable(178) == 62;
    }
    else if i == 63 {
      assert ExpTable(63) == 205 && LogTable(205) == 63;
    }
  }

  lemma LogOfExpTableBlock8(i: nat)
    requires 64 <= i < 72
    ensures ExpTable(i) != 0 && LogTable(ExpTable(i)) == i
  {
    if i == 64 {
      assert ExpTable(64) == 76 && LogTable(76) == 64;
    }
    else if i == 65 {
      assert ExpTable(65) == 212 && LogTable(212) == 65;
    }
    else if i == 66 {
      assert ExpTable(66) == 103 && LogTable(103) == 66;
    }
    else if i == 67 {
      assert ExpTable(67) == 169 && LogTable(169) == 67;
    }
    else if i == 68 {
      assert ExpTable(68) == 224 && LogTable(224) == 68;
    }
    else if i == 69 {
      assert ExpTable(69) == 59 && LogTable(59) == 69;
    }
    else if i == 70 {
      assert ExpTable(70) == 77 && LogTable(77) == 70;
    }
    else if i == 71 {
      assert ExpTable(71) == 215 && LogTable(215) == 71;
    }
  }

  lemma LogOfExpTableBlock9(i: nat)
    requires 72 <= i < 80
    ensures ExpTable(i) != 0 && LogTable(ExpTable(i)) == i
  {
    if i == 72 {
      assert ExpTable(72) == 98 && LogTable(98) == 72;
    }
    else if i == 73 {
      assert ExpTable(73) == 166 && LogTable(166) == 73;
    }
    else if i == 74 {
      assert ExpTable(74) == 241 && LogTable(241) == 74;
    }
    else if i == 75 {
      assert ExpTable(75) == 8 && LogTable(8) == 75;
    }
    else if i == 76 {
      assert ExpTable(76) == 24 && LogTable(24) == 76;
    }
    else if i == 77 {
      assert ExpTable(77) == 40 && LogTable(40) == 77;
    }
    else if i == 78 {
      assert ExpTable(78) == 120 && LogTable(120) == 78;
    }
    else if i == 79 {
      assert ExpTable(79) == 136 && LogTable(136) == 79;
    }
  }

  lemma LogOfExpTableBlock10(i: nat)
    requires 80 <= i < 88
    ensures ExpTable(i) != 0 && LogTable(ExpTable(i)) == i
  {
    if i == 80 {
      assert ExpTable(80) == 131 && LogTable(131) == 80;
    }
    else if i == 81 {
      assert ExpTable(81) == 158 && LogTable(158) == 81;
    }
    else if i == 82 {
      assert ExpTable(82) == 185 && LogTable(185) == 82;
    }
    else if i == 83 {
      assert ExpTable(83) == 208 && LogTable(208) == 83;
    }
    else if i == 84 {
      assert ExpTable(84) == 107 && LogTable(107) == 84;
    }
    else if i == 85 {
      assert ExpTable(85) == 189 && LogTable(189) == 85;
    }
    else if i == 86 {
      assert ExpTable(86) == 220 && LogTable(220) == 86;
    }
    else if i == 87 {
      assert ExpTable(87) == 127 && LogTable(127) == 87;
    }
  }

  lemma LogOfExpTableBlock11(i: nat)
    requires 88 <= i < 96
    ensures ExpTable(i) != 0 && LogTable(ExpTable(i)) == i
  {
    if i == 88 {
      assert ExpTable(88) == 129 && LogTable(129) == 88;
    }
    else if i == 89 {
      assert ExpTable(89) == 152 && LogTable(152) == 89;
    }
    else if i == 90 {
      assert ExpTable(90) == 179 && LogTable(179) == 90;
    }
    else if i == 91 {
      assert ExpTable(91) == 206 && LogTable(206) == 91;
    }
    else if i == 92 {
      assert ExpTable(92) == 73 && LogTable(73) == 92;
    }
    else if i == 93 {
      assert ExpTable(93) == 219 && LogTable(219) == 93;
    }
    else if i == 94 {
      assert ExpTable(94) == 118 && LogTable(118) == 94;
    }
    else if i == 95 {
      assert ExpTable(95) == 154 && LogTable(154) == 95;
    }
  }

  lemma LogOfExpTableBlock12(i: nat)
    requires 96 <= i < 104
    ensures ExpTable(i) != 0 && LogTable(ExpTable(i)) == i
  {
    if i == 96 {
      assert ExpTable(96) == 181 && LogTable(181) == 96;
    }
    else if i == 97 {
      assert ExpTable(97) == 196 && LogTable(196) == 97;
    }
    else if i == 98 {
      assert ExpTable(98) == 87 && LogTable(87) == 98;
    }
    else if i == 99 {
      assert ExpTable(99) == 249 && LogTable(249) == 99;
    }
    else if i == 100 {
      assert ExpTable(100) == 16 && LogTable(16) == 100;
    }
    else if i == 101 {
      assert ExpTable(101) == 48 && LogTable(48) == 101;
    }
    else if i == 102 {
      assert ExpTable(102) == 80 && LogTable(80) == 102;
    }
    else if i == 103 {
      assert ExpTable(103) == 240 && LogTable(240) == 103;
    }
  }

  lemma LogOfExpTableBlock13(i: nat)
    requires 104 <= i < 112
    ensures ExpTable(i) != 0 && LogTable(ExpTable(i)) == i
  {
    if i == 104 {
      assert ExpTable(104) == 11 && LogTable(11) == 104;
    }
    else if i == 105 {
      assert ExpTable(105) == 29 && LogTable(29) == 105;
    }
    else if i == 106 {
      assert ExpTable(106) == 39 && LogTable(39) == 106;
    }
    else if i == 107 {
      assert ExpTable(107) == 105 && LogTable(105) == 107;
    }
    else if i == 108 {
      assert ExpTable(108) == 187 && LogTable(187) == 108;
    }
    else if i == 109 {
      assert ExpTable(109) == 214 && LogTable(214) == 109;
    }
    else if i == 110 {
      assert ExpTable(110) == 97 && LogTable(97) == 110;
    }
    else if i == 111 {
      assert ExpTable(111) == 163 && LogTable(163) == 111;
    }
  }

  lemma LogOfExpTableBlock14(i: nat)
    requires 112 <= i < 120
    ensures ExpTable(i) != 0 && LogTable(ExpTable(i)) == i
  {
    if i == 112 {
      assert ExpTable(112) == 254 && LogTable(254) == 112;
    }
    else if i == 113 {
      assert ExpTable(113) == 25 && LogTable(25) == 113;
    }
    else if i == 114 {
      assert ExpTable(114) == 43 && LogTable(43) == 114;
    }
    else if i == 115 {
      assert ExpTable(115) == 125 && LogTable(125) == 115;
    }
    else if i == 116 {
      assert ExpTable(116) == 135 && LogTable(135) == 116;
    }
    else if i == 117 {
      assert ExpTable(117) == 146 && LogTable(146) == 117;
    }
    else if i == 118 {
      assert ExpTable(118) == 173 && LogTable(173) == 118;
    }
    else if i == 119 {
      assert ExpTable(119) == 236 && LogTable(236) == 119;
    }
  }

  lemma LogOfExpTableBlock15(i: nat)
    requires 120 <= i < 128
    ensures ExpTable(i) != 0 && LogTable(ExpTable(i)) == i
  {
    if i == 120 {
      assert ExpTable(120) == 47 && LogTable(47) == 120;
    }
    else if i == 121 {
      assert ExpTable(121) == 113 && LogTable(113) == 121;
    }
    else if i == 122 {
      assert ExpTable(122) == 147 && LogTable(147) == 122;
    }
    else if i == 123 {
      assert ExpTable(123) == 174 && LogTable(174) == 123;
    }
    else if i == 124 {
      assert ExpTable(124) == 233 && LogTable(233) == 124;
    }
    else if i == 125 {
      assert ExpTable(125) == 32 && LogTable(32) == 125;
    }
    else if i == 126 {
      assert ExpTable(126) == 96 && LogTable(96) == 126;
    }
    else if i == 127 {
      assert ExpTable(127) == 160 && LogTable(160) == 127;
    }
  }

  lemma LogOfExpTableBlock16(i: nat)
    requires 128 <= i < 136
    ensures ExpTable(i) != 0 && LogTable(ExpTable(i)) == i
  {
    if i == 128 {
      assert ExpTable(128) == 251 && LogTable(251) == 128;
    }
    else if i == 129 {
      assert ExpTable(129) == 22 && LogTable(22) == 129;
    }
    else if i == 130 {
      assert ExpTable(130) == 58 && LogTable(58) == 130;
    }
    else if i == 131 {
      assert ExpTable(131) == 78 && LogTable(78) == 131;
    }
    else if i == 132 {
      assert ExpTable(132) == 210 && LogTable(210) == 132;
    }
    else if i == 133 {
      assert ExpTable(133) == 109 && LogTable(109) == 133;
    }
    else if i == 134 {
      assert ExpTable(134) == 183 && LogTable(183) == 134;
    }
    else if i == 135 {
      assert ExpTable(135) == 194 && LogTable(194) == 135;
    }
  }

  lemma LogOfExpTableBlock17(i: nat)
    requires 136 <= i < 144
    ensures ExpTable(i) != 0 && LogTable(ExpTable(i)) == i
  {
    if i == 136 {
      assert ExpTable(136) == 93 && LogTable(93) == 136;
    }
    else if i == 137 {
      assert ExpTable(137) == 231 && LogTable(231) == 137;
    }
    else if i == 138 {
      assert ExpTable(138) == 50 && LogTable(50) == 138;
    }
    else if i == 139 {
      assert ExpTable(139) == 86 && LogTable(86) == 139;
    }
    else if i == 140 {
      assert ExpTable(140) == 250 && LogTable(250) == 140;
    }
    else if i == 141 {
      assert ExpTable(141) == 21 && LogTable(21) == 141;
    }
    else if i == 142 {
      assert ExpTable(142) == 63 && LogTable(63) == 142;
    }
    else if i == 143 {
      assert ExpTable(143) == 65 && LogTable(65) == 143;
    }
  }

  lemma LogOfExpTableBlock18(i: nat)
    requires 144 <= i < 152
    ensures ExpTable(i) != 0 && LogTable(ExpTable(i)) == i
  {
    if i == 144 {
      assert ExpTable(144) == 195 && LogTable(195) == 144;
    }
    else if i == 145 {
      assert ExpTable(145) == 94 && LogTable(94) == 145;
    }
    else if i == 146 {
      assert ExpTable(146) == 226 && LogTable(226) == 146;
    }
    else if i == 147 {
      assert ExpTable(147) == 61 && LogTable(61) == 147;
    }
    else if i == 148 {
      assert ExpTable(148) == 71 && LogTable(71) == 148;
    }
    else if i == 149 {
      assert ExpTable(149) == 201 && LogTable(201) == 149;
    }
    else if i == 150 {
      assert ExpTable(150) == 64 && LogTable(64) == 150;
    }
    else if i == 151 {
      assert ExpTable(151) == 192 && LogTable(192) == 151;
    }
  }

  lemma LogOfExpTableBlock19(i: nat)
    requires 152 <= i < 160
    ensures ExpTable(i) != 0 && LogTable(ExpTable(i)) == i
  {
    if i == 152 {
      assert ExpTable(152) == 91 && LogTable(91) == 152;
    }
    else if i == 153 {
      assert ExpTable(153) == 237 && LogTable(237) == 153;
    }
    else if i == 154 {
      assert ExpTable(154) == 44 && LogTable(44) == 154;
    }
    else if i == 155 {
      assert ExpTable(155) == 116 && LogTable(116) == 155;
    }
    else if i == 156 {
      assert ExpTable(156) == 156 && LogTable(156) == 156;
    }
    else if i == 157 {
      assert ExpTable(157) == 191 && LogTable(191) == 157;
    }
    else if i == 158 {
      assert ExpTable(158) == 218 && LogTable(218) == 158;
    }
    else if i == 159 {
      assert ExpTable(159) == 117 && LogTable(117) == 159;
    }
  }

  lemma LogOfExpTableBlock20(i: nat)
    requires 160 <= i < 168
    ensures ExpTable(i) != 0 && LogTable(ExpTable(i)) == i
  {
    if i == 160 {
      assert ExpTable(160) == 159 && LogTable(159) == 160;
    }
    else if i == 161 {
      assert ExpTable(161) == 186 && LogTable(186) == 161;
    }
    else if i == 162 {
      assert ExpTable(162) == 213 && LogTable(213) == 162;
    }
    else if i == 163 {
      assert ExpTable(163) == 100 && LogTable(100) == 163;
    }
    else if i == 164 {
      assert ExpTable(164) == 172 && LogTable(172) == 164;
    }
    else if i == 165 {
      assert ExpTable(165) == 239 && LogTable(239) == 165;
    }
    else if i == 166 {
      assert ExpTable(166) == 42 && LogTable(42) == 166;
    }
    else if i == 167 {
      assert ExpTable(167) == 126 && LogTable(126) == 167;
    }
  }

  lemma LogOfExpTableBlock21(i: nat)
    requires 168 <= i < 176
    ensures ExpTable(i) != 0 && LogTable(ExpTable(i)) == i
  {
    if i == 168 {
      assert ExpTable(168) == 130 && LogTable(130) == 168;
    }
    else if i == 169 {
      assert ExpTable(169) == 157 && LogTable(157) == 169;
    }
    else if i == 170 {
      assert ExpTable(170) == 188 && LogTable(188) == 170;
    }
    else if i == 171 {
      assert ExpTable(171) == 223 && LogTable(223) == 171;
    }
    else if i == 172 {
      assert ExpTable(172) == 122 && LogTable(122) == 172;
    }
    else if i == 173 {
      assert ExpTable(173) == 142 && LogTable(142) == 173;
    }
    else if i == 174 {
      assert ExpTable(174) == 137 && LogTable(137) == 174;
    }
    else if i == 175 {
      assert ExpTable(175) == 128 && LogTable(128) == 175;
    }
  }

  lemma LogOfExpTableBlock22(i: nat)
    requires 176 <= i < 184
    ensures ExpTable(i) != 0 && LogTable(ExpTable(i)) == i
  {
    if i == 176 {
      assert ExpTable(176) == 155 && LogTable(155) == 176;
    }
    else if i == 177 {
      assert ExpTable(177) == 182 && LogTable(182) == 177;
    }
    else if i == 178 {
      assert ExpTable(178) == 193 && LogTable(193) == 178;
    }
    else if i == 179 {
      assert ExpTable(179) == 88 && LogTable(88) == 179;
    }
    else if i == 180 {
      assert ExpTable(180) == 232 && LogTable(232) == 180;
    }
    else if i == 181 {
      assert ExpTable(181) == 35 && LogTable(35) == 181;
    }
    else if i == 182 {
      assert ExpTable(182) == 101 && LogTable(101) == 182;
    }
    else if i == 183 {
      assert ExpTable(183) == 175 && LogTable(175) == 183;
    }
  }

  lemma LogOfExpTableBlock23(i: nat)
    requires 184 <= i < 192
    ensures ExpTable(i) != 0 && LogTable(ExpTable(i)) == i
  {
    if i == 184 {
      assert ExpTable(184) == 234 && LogTable(234) == 184;
    }
    else if i == 185 {
      assert ExpTable(185) == 37 && LogTable(37) == 185;
    }
    else if i == 186 {
      assert ExpTable(186) == 111 && LogTable(111) == 186;
    }
    else if i == 187 {
      assert ExpTable(187) == 177 && LogTable(177) == 187;
    }
    else if i == 188 {
      assert ExpTable(188) == 200 && LogTable(200) == 188;
    }
    else if i == 189 {
      assert ExpTable(189) == 67 && LogTable(67) == 189;
    }
    else if i == 190 {
      assert ExpTable(190) == 197 && LogTable(197) == 190;
    }
    else if i == 191 {
      assert ExpTable(191) == 84 && LogTable(84) == 191;
    }
  }

  lemma LogOfExpTableBlock24(i: nat)
    requires 192 <= i < 200
    ensures ExpTable(i) != 0 && LogTable(ExpTable(i)) == i
  {
    if i == 192 {
      assert ExpTable(192) == 252 && LogTable(252) == 192;
    }
    else if i == 193 {
      assert ExpTable(193) == 31 && LogTable(31) == 193;
    }
    else if i == 194 {
      assert ExpTable(194) == 33 && LogTable(33) == 194;
    }
    else if i == 195 {
      assert ExpTable(195) == 99 && LogTable(99) == 195;
    }
    else if i == 196 {
      assert ExpTable(196) == 165 && LogTable(165) == 196;
    }
    else if i == 197 {
      assert ExpTable(197) == 244 && LogTable(244) == 197;
    }
    else if i == 198 {
      assert ExpTable(198) == 7 && LogTable(7) == 198;
    }
    else if i == 199 {
      assert ExpTable(199) == 9 && LogTable(9) == 199;
    }
  }

  lemma LogOfExpTableBlock25(i: nat)
    requires 200 <= i < 208
    ensures ExpTable(i) != 0 && LogTable(ExpTable(i)) == i
  {
    if i == 200 {
      assert ExpTable(200) == 27 && LogTable(27) == 200;
    }
    else if i == 201 {
      assert ExpTable(201) == 45 && LogTable(45) == 201;
    }
    else if i == 202 {
      assert ExpTable(202) == 119 && LogTable(119) == 202;
    }
    else if i == 203 {
      assert ExpTable(203) == 153 && LogTable(153) == 203;
    }
    else if i == 204 {
      assert ExpTable(204) == 176 && LogTable(176) == 204;
    }
    else if i == 205 {
      assert ExpTable(205) == 203 && LogTable(203) == 205;
    }
    else if i == 206 {
      assert ExpTable(206) == 70 && LogTable(70) == 206;
    }
    else if i == 207 {
      assert ExpTable(207) == 202 && LogTable(202) == 207;
    }
  }

  lemma LogOfExpTableBlock26(i: nat)
    requires 208 <= i < 216
    ensures ExpTable(i) != 0 && LogTable(ExpTable(i)) == i
  {
    if i == 208 {
      assert ExpTable(208) == 69 && LogTable(69) == 208;
    }
    else if i == 209 {
      assert ExpTable(209) == 207 && LogTable(207) == 209;
    }
    else if i == 210 {
      assert ExpTable(210) == 74 && LogTable(74) == 210;
    }
    else if i == 211 {
      assert ExpTable(211) == 222 && LogTable(222) == 211;
    }
    else if i == 212 {
      assert ExpTable(212) == 121 && LogTable(121) == 212;
    }
    else if i == 213 {
      assert ExpTable(213) == 139 && LogTable(139) == 213;
    }
    else if i == 214 {
      assert ExpTable(214) == 134 && LogTable(134) == 214;
    }
    else if i == 215 {
      assert ExpTable(215) == 145 && LogTable(145) == 215;
    }
  }

  lemma LogOfExpTableBlock27(i: nat)
    requires 216 <= i < 224
    ensures ExpTable(i) != 0 && LogTable(ExpTable(i)) == i
  {
    if i == 216 {
      assert ExpTable(216) == 168 && LogTable(168) == 216;
    }
    else if i == 217 {
      assert ExpTable(217) == 227 && LogTable(227) == 217;
    }
    else if i == 218 {
      assert ExpTable(218) == 62 && LogTable(62) == 218;
    }
    else if i == 219 {
      assert ExpTable(219) == 66 && LogTable(66) == 219;
    }
    else if i == 220 {
      assert ExpTable(220) == 198 && LogTable(198) == 220;
    }
    else if i == 221 {
      assert ExpTable(221) == 81 && LogTable(81) == 221;
    }
    else if i == 222 {
      assert ExpTable(222) == 243 && LogTable(243) == 222;
    }
    else if i == 223 {
      assert ExpTable(223) == 14 && LogTable(14) == 223;
    }
  }

  lemma LogOfExpTableBlock28(i: nat)
    requires 224 <= i < 232
    ensures ExpTable(i) != 0 && LogTable(ExpTable(i)) == i
  {
    if i == 224 {
      assert ExpTable(224) == 18 && LogTable(18) == 224;
    }
    else if i == 225 {
      assert ExpTable(225) == 54 && LogTable(54) == 225;
    }
    else if i == 226 {
      assert ExpTable(226) == 90 && LogTable(90) == 226;
    }
    else if i == 227 {
      assert ExpTable(227) == 238 && LogTable(238) == 227;
    }
    else if i == 228 {
      assert ExpTable(228) == 41 && LogTable(41) == 228;
    }
    else if i == 229 {
      assert ExpTable(229) == 123 && LogTable(123) == 229;
    }
    else if i == 230 {
      assert ExpTable(230) == 141 && LogTable(141) == 230;
    }
    else if i == 231 {
      assert ExpTable(231) == 140 && LogTable(140) == 231;
    }
  }

  lemma LogOfExpTableBlock29(i: nat)
    requires 232 <= i < 240
    ensures ExpTable(i) != 0 && LogTable(ExpTable(i)) == i
  {
    if i == 232 {
      assert ExpTable(232) == 143 && LogTable(143) == 232;
    }
    else if i == 233 {
      assert ExpTable(233) == 138 && LogTable(138) == 233;
    }
    else if i == 234 {
      assert ExpTable(234) == 133 && LogTable(133) == 234;
    }
    else if i == 235 {
      assert ExpTable(235) == 148 && LogTable(148) == 235;
    }
    else if i == 236 {
      assert ExpTable(236) == 167 && LogTable(167) == 236;
    }
    else if i == 237 {
      assert ExpTable(237) == 242 && LogTable(242) == 237;
    }
    else if i == 238 {
      assert ExpTable(238) == 13 && LogTable(13) == 238;
    }
    else if i == 239 {
      assert ExpTable(239) == 23 && LogTable(23) == 239;
    }
  }

  lemma LogOfExpTableBlock30(i: nat)
    requires 240 <= i < 248
    ensures ExpTable(i) != 0 && LogTable(ExpTable(i)) == i
  {
    if i == 240 {
      assert ExpTable(240) == 57 && LogTable(57) == 240;
    }
    else if i == 241 {
      assert ExpTable(241) == 75 && LogTable(75) == 241;
    }
    else if i == 242 {
      assert ExpTable(242) == 221 && LogTable(221) == 242;
    }
    else if i == 243 {
      assert ExpTable(243) == 124 && LogTable(124) == 243;
    }
    else if i == 244 {
      assert ExpTable(244) == 132 && LogTable(132) == 244;
    }
    else if i == 245 {
      assert ExpTable(245) == 151 && LogTable(151) == 245;
    }
    else if i == 246 {
      assert ExpTable(246) == 162 && LogTable(162) == 246;
    }
    else if i == 247 {
      assert ExpTable(247) == 253 && LogTable(253) == 247;
    }
  }

  lemma LogOfExpTableBlock31(i: nat)
    requires 248 <= i < 255
    ensures ExpTable(i) != 0 && LogTable(ExpTable(i)) == i
  {
    if i == 248 {
      assert ExpTable(248) == 28 && LogTable(28) == 248;
    }
    else if i == 249 {
      assert ExpTable(249) == 36 && LogTable(36) == 249;
    }
    else if i == 250 {
      assert ExpTable(250) == 108 && LogTable(108) == 250;
    }
    else if i == 251 {
      assert ExpTable(251) == 180 && LogTable(180) == 251;
    }
    else if i == 252 {
      assert ExpTable(252) == 199 && LogTable(199) == 252;
    }
    else if i == 253 {
      assert ExpTable(253) == 82 && LogTable(82) == 253;
    }
    else if i == 254 {
      assert ExpTable(254) == 246 && LogTable(246) == 254;
    }
  }

  /** The exponent table inverts the logarithm table on
      nonzero bytes.  Checked for every byte. */
  lemma ExpOfLogTable(a: byte)
    requires a != 0
    ensures 0 <= LogTable(a) < GROUP_ORDER && ExpTable(LogTable(a)) == a
  {
    if a < 9 { ExpOfLogTableBlock0(a); }
    else if a < 17 { ExpOfLogTableBlock1(a); }
    else if a < 25 { ExpOfLogTableBlock2(a); }
    else if a < 33 { ExpOfLogTableBlock3(a); }
    else if a < 41 { ExpOfLogTableBlock4(a); }
    else if a < 49 { ExpOfLogTableBlock5(a); }
    else if a < 57 { ExpOfLogTableBlock6(a); }
    else if a < 65 { ExpOfLogTableBlock7(a); }
    else if a < 73 { ExpOfLogTableBlock8(a); }
    else if a < 81 { ExpOfLogTableBlock9(a); }
    else if a < 89 { ExpOfLogTableBlock10(a); }
    else if a < 97 { ExpOfLogTableBlock11(a); }
    else if a < 105 { ExpOfLogTableBlock12(a); }
    else if a < 113 { ExpOfLogTableBlock13(a); }
    else if a < 121 { ExpOfLogTableBlock14(a); }
    else if a < 129 { ExpOfLogTableBlock15(a); }
    else if a < 137 { ExpOfLogTableBlock16(a); }
    else if a < 145 { ExpOfLogTableBlock17(a); }
    else if a < 153 { ExpOfLogTableBlock18(a); }
    else if a < 161 { ExpOfLogTableBlock19(a); }
    else if a < 169 { ExpOfLogTableBlock20(a); }
    else if a < 177 { ExpOfLogTableBlock21(a); }
    else if a < 185 { ExpOfLogTableBlock22(a); }
    else if a < 193 { ExpOfLogTableBlock23(a); }
    else if a < 201 { ExpOfLogTableBlock24(a); }
    else if a < 209 { ExpOfLogTableBlock25(a); }
    else if a < 217 { ExpOfLogTableBlock26(a); }
    else if a < 225 { ExpOfLogTableBlock27(a); }
    else if a < 233 { ExpOfLogTableBlock28(a); }
    else if a < 241 { ExpOfLogTableBlock29(a); }
    else if a < 249 { ExpOfLogTableBlock30(a); }
    else { ExpOfLogTableBlock31(a); }
  }

  lemma ExpOfLogTableBlock0(a: byte)
    requires 1 <= a < 9
    ensures 0 <= LogTable(a) < GROUP_ORDER && ExpTable(LogTable(a)) == a
  {
    if a == 1 {
      assert LogTable(1) == 0 && ExpTable(0) == 1;
    }
    else if a == 2 {
      assert LogTable(2) == 25 && ExpTable(25) == 2;
    }
    else if a == 3 {
      assert LogTable(3) == 1 && ExpTable(1) == 3;
    }
    else if a == 4 {
      assert LogTable(4) == 50 && ExpTable(50) == 4;
    }
    else if a == 5 {
      assert LogTable(5) == 2 && ExpTable(2) == 5;
    }
    else if a == 6 {
      assert LogTable(6) == 26 && ExpTable(26) == 6;
    }
    else if a == 7 {
      assert LogTable(7) == 198 && ExpTable(198) == 7;
    }
    else if a == 8 {
      assert LogTable(8) == 75 && ExpTable(75) == 8;
    }
  }

  lemma ExpOfLogTableBlock1(a: byte)
    requires 9 <= a < 17
    ensures 0 <= LogTable(a) < GROUP_ORDER && ExpTable(LogTable(a)) == a
  {
    if a == 9 {
      assert LogTable(9) == 199 && ExpTable(199) == 9;
    }
    else if a == 10 {
      assert LogTable(10) == 27 && ExpTable(27) == 10;
    }
    else if a == 11 {
      assert LogTable(11) == 104 && ExpTable(104) == 11;
    }
    else if a == 12 {
      assert LogTable(12) == 51 && ExpTable(51) == 12;
    }
    else if a == 13 {
      assert LogTable(13) == 238 && ExpTable(238) == 13;
    }
    else if a == 14 {
      assert LogTable(14) == 223 && ExpTable(223) == 14;
    }
    else if a == 15 {
      assert LogTable(15) == 3 && ExpTable(3) == 15;
    }
    else if a == 16 {
      assert LogTable(16) == 100 && ExpTable(100) == 16;
    }
  }

  lemma ExpOfLogTableBlock2(a: byte)
    requires 17 <= a < 25
    ensures 0 <= LogTable(a) < GROUP_ORDER && ExpTable(LogTable(a)) == a
  {
    if a == 17 {
      assert LogTable(17) == 4 && ExpTable(4) == 17;
    }
    else if a == 18 {
      assert LogTable(18) == 224 && ExpTable(224) == 18;
    }
    else if a == 19 {
      assert LogTable(19) == 14 && ExpTable(14) == 19;
    }
    else if a == 20 {
      assert LogTable(20) == 52 && ExpTable(52) == 20;
    }
    else if a == 21 {
      assert LogTable(21) == 141 && ExpTable(141) == 21;
    }
    else if a == 22 {
      assert LogTable(22) == 129 && ExpTable(129) == 22;
    }
    else if a == 23 {
      assert LogTable(23) == 239 && ExpTable(239) == 23;
    }
    else if a == 24 {
      assert LogTable(24) == 76 && ExpTable(76) == 24;
    }
  }

  lemma ExpOfLogTableBlock3(a: byte)
    requires 25 <= a < 33
    ensures 0 <= LogTable(a) < GROUP_ORDER && ExpTable(LogTable(a)) == a
  {
    if a == 25 {
      assert LogTable(25) == 113 && ExpTable(113) == 25;
    }
    else if a == 26 {
      assert LogTable(26) == 8 && ExpTable(8) == 26;
    }
    else if a == 27 {
      assert LogTable(27) == 200 && ExpTable(200) == 27;
    }
    else if a == 28 {
      assert LogTable(28) == 248 && ExpTable(248) == 28;
    }
    else if a == 29 {
      assert LogTable(29) == 105 && ExpTable(105) == 29;
    }
    else if a == 30 {
      assert LogTable(30) == 28 && ExpTable(28) == 30;
    }
    else if a == 31 {
      assert LogTable(31) == 193 && ExpTable(193) == 31;
    }
    else if a == 32 {
      assert LogTable(32) == 125 && ExpTable(125) == 32;
    }
  }

  lemma ExpOfLogTableBlock4(a: byte)
    requires 33 <= a < 41
    ensures 0 <= LogTable(a) < GROUP_ORDER && ExpTable(LogTable(a)) == a
  {
    if a == 33 {
      assert LogTable(33) == 194 && ExpTable(194) == 33;
    }
    else if a == 34 {
      assert LogTable(34) == 29 && ExpTable(29) == 34;
    }
    else if a == 35 {
      assert LogTable(35) == 181 && ExpTable(181) == 35;
    }
    else if a == 36 {
      assert LogTable(36) == 249 && ExpTable(249) == 36;
    }
    else if a == 37 {
      assert LogTable(37) == 185 && ExpTable(185) == 37;
    }
    else if a == 38 {
      assert LogTable(38) == 39 && ExpTable(39) == 38;
    }
    else if a == 39 {
      assert LogTable(39) == 106 && ExpTable(106) == 39;
    }
    else if a == 40 {
      assert LogTable(40) == 77 && ExpTable(77) == 40;
    }
  }

  lemma ExpOfLogTableBlock5(a: byte)
    requires 41 <= a < 49
    ensures 0 <= LogTable(a) < GROUP_ORDER && ExpTable(LogTable(a)) == a
  {
    if a == 41 {
      assert LogTable(41) == 228 && ExpTable(228) == 41;
    }
    else if a == 42 {
      assert LogTable(42) == 166 && ExpTable(166) == 42;
    }
    else if a == 43 {
      assert LogTable(43) == 114 && ExpTable(114) == 43;
    }
    else if a == 44 {
      assert LogTable(44) == 154 && ExpTable(154) == 44;
    }
    else if a == 45 {
      assert LogTable(45) == 201 && ExpTable(201) == 45;
    }
    else if a == 46 {
      assert LogTable(46) == 9 && ExpTable(9) == 46;
    }
    else if a == 47 {
      assert LogTable(47) == 120 && ExpTable(120) == 47;
    }
    else if a == 48 {
      assert LogTable(48) == 101 && ExpTable(101) == 48;
    }
  }

  lemma ExpOfLogTableBlock6(a: byte)
    requires 49 <= a < 57
    ensures 0 <= LogTable(a) < GROUP_ORDER && ExpTable(LogTable(a)) == a
  {
    if a == 49 {
      assert LogTable(49) == 47 && ExpTable(47) == 49;
    }
    else if a == 50 {
      assert LogTable(50) == 138 && ExpTable(138) == 50;
    }
    else if a == 51 {
      assert LogTable(51) == 5 && ExpTable(5) == 51;
    }
    else if a == 52 {
      assert LogTable(52) == 33 && ExpTable(33) == 52;
    }
    else if a == 53 {
      assert LogTable(53) == 15 && ExpTable(15) == 53;
    }
    else if a == 54 {
      assert LogTable(54) == 225 && ExpTable(225) == 54;
    }
    else if a == 55 {
      assert LogTable(55) == 36 && ExpTable(36) == 55;
    }
    else if a == 56 {
      assert LogTable(56) == 18 && ExpTable(18) == 56;
    }
  }

  lemma ExpOfLogTableBlock7(a: byte)
    requires 57 <= a < 65
    ensures 0 <= LogTable(a) < GROUP_ORDER && ExpTable(LogTable(a)) == a
  {
    if a == 57 {
      assert LogTable(57) == 240 && ExpTable(240) == 57;
    }
    else if a == 58 {
      assert LogTable(58) == 130 && ExpTable(130) == 58;
    }
    else if a == 59 {
      assert LogTable(59) == 69 && ExpTable(69) == 59;
    }
    else if a == 60 {
      assert LogTable(60) == 53 && ExpTable(53) == 60;
    }
    else if a == 61 {
      assert LogTable(61) == 147 && ExpTable(147) == 61;
    }
    else if a == 62 {
      assert LogTable(62) == 218 && ExpTable(218) == 62;
    }
    else if a == 63 {
      assert LogTable(63) == 142 && ExpTable(142) == 63;
    }
    else if a == 64 {
      assert LogTable(64) == 150 && ExpTable(150) == 64;
    }
  }

  lemma ExpOfLogTableBlock8(a: byte)
    requires 65 <= a < 73
    ensures 0 <= LogTable(a) < GROUP_ORDER && ExpTable(LogTable(a)) == a
  {
    if a == 65 {
      assert LogTable(65) == 143 && ExpTable(143) == 65;
    }
    else if a == 66 {
      assert LogTable(66) == 219 && ExpTable(219) == 66;
    }
    else if a == 67 {
      assert LogTable(67) == 189 && ExpTable(189) == 67;
    }
    else if a == 68 {
      assert LogTable(68) == 54 && ExpTable(54) == 68;
    }
    else if a == 69 {
      assert LogTable(69) == 208 && ExpTable(208) == 69;
    }
    else if a == 70 {
      assert LogTable(70) == 206 && ExpTable(206) == 70;
    }
    else if a == 71 {
      assert LogTable(71) == 148 && ExpTable(148) == 71;
    }
    else if a == 72 {
      assert LogTable(72) == 19 && ExpTable(19) == 72;
    }
  }

  lemma ExpOfLogTableBlock9(a: byte)
    requires 73 <= a < 81
    ensures 0 <= LogTable(a) < GROUP_ORDER && ExpTable(LogTable(a)) == a
  {
    if a == 73 {
      assert LogTable(73) == 92 && ExpTable(92) == 73;
    }
    else if a == 74 {
      assert LogTable(74) == 210 && ExpTable(210) == 74;
    }
    else if a == 75 {
      assert LogTable(75) == 241 && ExpTable(241) == 75;
    }
    else if a == 76 {
      assert LogTable(76) == 64 && ExpTable(64) == 76;
    }
    else if a == 77 {
      assert LogTable(77) == 70 && ExpTable(70) == 77;
    }
    else if a == 78 {
      assert LogTable(78) == 131 && ExpTable(131) == 78;
    }
    else if a == 79 {
      assert LogTable(79) == 56 && ExpTable(56) == 79;
    }
    else if a == 80 {
      assert LogTable(80) == 102 && ExpTable(102) == 80;
    }
  }

  lemma ExpOfLogTableBlock10(a: byte)
    requires 81 <= a < 89
    ensures 0 <= LogTable(a) < GROUP_ORDER && ExpTable(LogTable(a)) == a
  {
    if a == 81 {
      assert LogTable(81) == 221 && ExpTable(221) == 81;
    }
    else if a == 82 {
      assert LogTable(82) == 253 && ExpTable(253) == 82;
    }
    else if a == 83 {
      assert LogTable(83) == 48 && ExpTable(48) == 83;
    }
    else if a == 84 {
      assert LogTable(84) == 191 && ExpTable(191) == 84;
    }
    else if a == 85 {
      assert LogTable(85) == 6 && ExpTable(6) == 85;
    }
    else if a == 86 {
      assert LogTable(86) == 139 && ExpTable(139) == 86;
    }
    else if a == 87 {
      assert LogTable(87) == 98 && ExpTable(98) == 87;
    }
    else if a == 88 {
      assert LogTable(88) == 179 && ExpTable(179) == 88;
    }
  }

  lemma ExpOfLogTableBlock11(a: byte)
    requires 89 <= a < 97
    ensures 0 <= LogTable(a) < GROUP_ORDER && ExpTable(LogTable(a)) == a
  {
    if a == 89 {
      assert LogTable(89) == 37 && ExpTable(37) == 89;
    }
    else if a == 90 {
      assert LogTable(90) == 226 && ExpTable(226) == 90;
    }
    else if a == 91 {
      assert LogTable(91) == 152 && ExpTable(152) == 91;
    }
    else if a == 92 {
      assert LogTable(92) == 34 && ExpTable(34) == 92;
    }
    else if a == 93 {
      assert LogTable(93) == 136 && ExpTable(136) == 93;
    }
    else if a == 94 {
      assert LogTable(94) == 145 && ExpTable(145) == 94;
    }
    else if a == 95 {
      assert LogTable(95) == 16 && ExpTable(16) == 95;
    }
    else if a == 96 {
      assert LogTable(96) == 126 && ExpTable(126) == 96;
    }
  }

  lemma ExpOfLogTableBlock12(a: byte)
    requires 97 <= a < 105
    ensures 0 <= LogTable(a) < GROUP_ORDER && ExpTable(LogTable(a)) == a
  {
    if a == 97 {
      assert LogTable(97) == 110 && ExpTable(110) == 97;
    }
    else if a == 98 {
      assert LogTable(98) == 72 && ExpTable(72) == 98;
    }
    else if a == 99 {
      assert LogTable(99) == 195 && ExpTable(195) == 99;
    }
    else if a == 100 {
      assert LogTable(100) == 163 && ExpTable(163) == 100;
    }
    else if a == 101 {
      assert LogTable(101) == 182 && ExpTable(182) == 101;
    }
    else if a == 102 {
      assert LogTable(102) == 30 && ExpTable(30) == 102;
    }
    else if a == 103 {
      assert LogTable(103) == 66 && ExpTable(66) == 103;
    }
    else if a == 104 {
      assert LogTable(104) == 58 && ExpTable(58) == 104;
    }
  }

  lemma ExpOfLogTableBlock13(a: byte)
    requires 105 <= a < 113
    ensures 0 <= LogTable(a) < GROUP_ORDER && ExpTable(LogTable(a)) == a
  {
    if a == 105 {
      assert LogTable(105) == 107 && ExpTable(107) == 105;
    }
    else if a == 106 {
      assert LogTable(106) == 40 && ExpTable(40) == 106;
    }
    else if a == 107 {
      assert LogTable(107) == 84 && ExpTable(84) == 107;
    }
    else if a == 108 {
      assert LogTable(108) == 250 && ExpTable(250) == 108;
    }
    else if a == 109 {
      assert LogTable(109) == 133 && ExpTable(133) == 109;
    }
    else if a == 110 {
      assert LogTable(110) == 61 && ExpTable(61) == 110;
    }
    else if a == 111 {
      assert LogTable(111) == 186 && ExpTable(186) == 111;
    }
    else if a == 112 {
      assert LogTable(112) == 43 && ExpTable(43) == 112;
    }
  }

  lemma ExpOfLogTableBlock14(a: byte)
    requires 113 <= a < 121
    ensures 0 <= LogTable(a) < GROUP_ORDER && ExpTable(LogTable(a)) == a
  {
    if a == 113 {
      assert LogTable(113) == 121 && ExpTable(121) == 113;
    }
    else if a == 114 {
      assert LogTable(114) == 10 && ExpTable(10) == 114;
    }
    else if a == 115 {
      assert LogTable(115) == 21 && ExpTable(21) == 115;
    }
    else if a == 116 {
      assert LogTable(116) == 155 && ExpTable(155) == 116;
    }
    else if a == 117 {
      assert LogTable(117) == 159 && ExpTable(159) == 117;
    }
    else if a == 118 {
      assert LogTable(118) == 94 && ExpTable(94) == 118;
    }
    else if a == 119 {
      assert LogTable(119) == 202 && ExpTable(202) == 119;
    }
    else if a == 120 {
      assert LogTable(120) == 78 && ExpTable(78) == 120;
    }
  }

  lemma ExpOfLogTableBlock15(a: byte)
    requires 121 <= a < 129
    ensures 0 <= LogTable(a) < GROUP_ORDER && ExpTable(LogTable(a)) == a
  {
    if a == 121 {
      assert LogTable(121) == 212 && ExpTable(212) == 121;
    }
    else if a == 122 {
      assert LogTable(122) == 172 && ExpTable(172) == 122;
    }
    else if a == 123 {
      assert LogTable(123) == 229 && ExpTable(229) == 123;
    }
    else if a == 124 {
      assert LogTable(124) == 243 && ExpTable(243) == 124;
    }
    else if a == 125 {
      assert LogTable(125) == 115 && ExpTable(115) == 125;
    }
    else if a == 126 {
      assert LogTable(126) == 167 && ExpTable(167) == 126;
    }
    else if a == 127 {
      assert LogTable(127) == 87 && ExpTable(87) == 127;
    }
    else if a == 128 {
      assert LogTable(128) == 175 && ExpTable(175) == 128;
    }
  }

  lemma ExpOfLogTableBlock16(a: byte)
    requires 129 <= a < 137
    ensures 0 <= LogTable(a) < GROUP_ORDER && ExpTable(LogTable(a)) == a
  {
    if a == 129 {
      assert LogTable(129) == 88 && ExpTable(88) == 129;
    }
    else if a == 130 {
      assert LogTable(130) == 168 && ExpTable(168) == 130;
    }
    else if a == 131 {
      assert LogTable(131) == 80 && ExpTable(80) == 131;
    }
    else if a == 132 {
      assert LogTable(132) == 244 && ExpTable(244) == 132;
    }
    else if a == 133 {
      assert LogTable(133) == 234 && ExpTable(234) == 133;
    }
    else if a == 134 {
      assert LogTable(134) == 214 && ExpTable(214) == 134;
    }
    else if a == 135 {
      assert LogTable(135) == 116 && ExpTable(116) == 135;
    }
    else if a == 136 {
      assert LogTable(136) == 79 && ExpTable(79) == 136;
    }
  }

  lemma ExpOfLogTableBlock17(a: byte)
    requires 137 <= a < 145
    ensures 0 <= LogTable(a) < GROUP_ORDER && ExpTable(LogTable(a)) == a
  {
    if a == 137 {
      assert LogTable(137) == 174 && ExpTable(174) == 137;
    }
    else if a == 138 {
      assert LogTable(138) == 233 && ExpTable(233) == 138;
    }
    else if a == 139 {
      assert LogTable(139) == 213 && ExpTable(213) == 139;
    }
    else if a == 140 {
      assert LogTable(140) == 231 && ExpTable(231) == 140;
    }
    else if a == 141 {
      assert LogTable(141) == 230 && ExpTable(230) == 141;
    }
    else if a == 142 {
      assert LogTable(142) == 173 && ExpTable(173) == 142;
    }
    else if a == 143 {
      assert LogTable(143) == 232 && ExpTable(232) == 143;
    }
    else if a == 144 {
      assert LogTable(144) == 44 && ExpTable(44) == 144;
    }
  }

  lemma ExpOfLogTableBlock18(a: byte)
    requires 145 <= a < 153
    ensures 0 <= LogTable(a) < GROUP_ORDER && ExpTable(LogTable(a)) == a
  {
    if a == 145 {
      assert LogTable(145) == 215 && ExpTable(215) == 145;
    }
    else if a == 146 {
      assert LogTable(146) == 117 && ExpTable(117) == 146;
    }
    else if a == 147 {
      assert LogTable(147) == 122 && ExpTable(122) == 147;
    }
    else if a == 148 {
      assert LogTable(148) == 235 && ExpTable(235) == 148;
    }
    else if a == 149 {
      assert LogTable(149) == 22 && ExpTable(22) == 149;
    }
    else if a == 150 {
      assert LogTable(150) == 11 && ExpTable(11) == 150;
    }
    else if a == 151 {
      assert LogTable(151) == 245 && ExpTable(245) == 151;
    }
    else if a == 152 {
      assert LogTable(152) == 89 && ExpTable(89) == 152;
    }
  }

  lemma ExpOfLogTableBlock19(a: byte)
    requires 153 <= a < 161
    ensures 0 <= LogTable(a) < GROUP_ORDER && ExpTable(LogTable(a)) == a
  {
    if a == 153 {
      assert LogTable(153) == 203 && ExpTable(203) == 153;
    }
    else if a == 154 {
      assert LogTable(154) == 95 && ExpTable(95) == 154;
    }
    else if a == 155 {
      assert LogTable(155) == 176 && ExpTable(176) == 155;
    }
    else if a == 156 {
      assert LogTable(156) == 156 && ExpTable(156) == 156;
    }
    else if a == 157 {
      assert LogTable(157) == 169 && ExpTable(169) == 157;
    }
    else if a == 158 {
      assert LogTable(158) == 81 && ExpTable(81) == 158;
    }
    else if a == 159 {
      assert LogTable(159) == 160 && ExpTable(160) == 159;
    }
    else if a == 160 {
      assert LogTable(160) == 127 && ExpTable(127) == 160;
    }
  }

  lemma ExpOfLogTableBlock20(a: byte)
    requires 161 <= a < 169
    ensures 0 <= LogTable(a) < GROUP_ORDER && ExpTable(LogTable(a)) == a
  {
    if a == 161 {
      assert LogTable(161) == 12 && ExpTable(12) == 161;
    }
    else if a == 162 {
      assert LogTable(162) == 246 && ExpTable(246) == 162;
    }
    else if a == 163 {
      assert LogTable(163) == 111 && ExpTable(111) == 163;
    }
    else if a == 164 {
      assert LogTable(164) == 23 && ExpTable(23) == 164;
    }
    else if a == 165 {
      assert LogTable(165) == 196 && ExpTable(196) == 165;
    }
    else if a == 166 {
      assert LogTable(166) == 73 && ExpTable(73) == 166;
    }
    else if a == 167 {
      assert LogTable(167) == 236 && ExpTable(236) == 167;
    }
    else if a == 168 {
      assert LogTable(168) == 216 && ExpTable(216) == 168;
    }
  }

  lemma ExpOfLogTableBlock21(a: byte)
    requires 169 <= a < 177
    ensures 0 <= LogTable(a) < GROUP_ORDER && ExpTable(LogTable(a)) == a
  {
    if a == 169 {
      assert LogTable(169) == 67 && ExpTable(67) == 169;
    }
    else if a == 170 {
      assert LogTable(170) == 31 && ExpTable(31) == 170;
    }
    else if a == 171 {
      assert LogTable(171) == 45 && ExpTable(45) == 171;
    }
    else if a == 172 {
      assert LogTable(172) == 164 && ExpTable(164) == 172;
    }
    else if a == 173 {
      assert LogTable(173) == 118 && ExpTable(118) == 173;
    }
    else if a == 174 {
      assert LogTable(174) == 123 && ExpTable(123) == 174;
    }
    else if a == 175 {
      assert LogTable(175) == 183 && ExpTable(183) == 175;
    }
    else if a == 176 {
      assert LogTable(176) == 204 && ExpTable(204) == 176;
    }
  }

  lemma ExpOfLogTableBlock22(a: byte)
    requires 177 <= a < 185
    ensures 0 <= LogTable(a) < GROUP_ORDER && ExpTable(LogTable(a)) == a
  {
    if a == 177 {
      assert LogTable(177) == 187 && ExpTable(187) == 177;
    }
    else if a == 178 {
      assert LogTable(178) == 62 && ExpTable(62) == 178;
    }
    else if a == 179 {
      assert LogTable(179) == 90 && ExpTable(90) == 179;
    }
    else if a == 180 {
      assert LogTable(180) == 251 && ExpTable(251) == 180;
    }
    else if a == 181 {
      assert LogTable(181) == 96 && ExpTable(96) == 181;
    }
    else if a == 182 {
      assert LogTable(182) == 177 && ExpTable(177) == 182;
    }
    else if a == 183 {
      assert LogTable(183) == 134 && ExpTable(134) == 183;
    }
    else if a == 184 {
      assert LogTable(184) == 59 && ExpTable(59) == 184;
    }
  }

  lemma ExpOfLogTableBlock23(a: byte)
    requires 185 <= a < 193
    ensures 0 <= LogTable(a) < GROUP_ORDER && ExpTable(LogTable(a)) == a
  {
    if a == 185 {
      assert LogTable(185) == 82 && ExpTable(82) == 185;
    }
    else if a == 186 {
      assert LogTable(186) == 161 && ExpTable(161) == 186;
    }
    else if a == 187 {
      assert LogTable(187) == 108 && ExpTable(108) == 187;
    }
    else if a == 188 {
      assert LogTable(188) == 170 && ExpTable(170) == 188;
    }
    else if a == 189 {
      assert LogTable(189) == 85 && ExpTable(85) == 189;
    }
    else if a == 190 {
      assert LogTable(190) == 41 && ExpTable(41) == 190;
    }
    else if a == 191 {
      assert LogTable(191) == 157 && ExpTable(157) == 191;
    }
    else if a == 192 {
      assert LogTable(192) == 151 && ExpTable(151) == 192;
    }
  }

  lemma ExpOfLogTableBlock24(a: byte)
    requires 193 <= a < 201
    ensures 0 <= LogTable(a) < GROUP_ORDER && ExpTable(LogTable(a)) == a
  {
    if a == 193 {
      assert LogTable(193) == 178 && ExpTable(178) == 193;
    }
    else if a == 194 {
      assert LogTable(194) == 135 && ExpTable(135) == 194;
    }
    else if a == 195 {
      assert LogTable(195) == 144 && ExpTable(144) == 195;
    }
    else if a == 196 {
      assert LogTable(196) == 97 && ExpTable(97) == 196;
    }
    else if a == 197 {
      assert LogTable(197) == 190 && ExpTable(190) == 197;
    }
    else if a == 198 {
      assert LogTable(198) == 220 && ExpTable(220) == 198;
    }
    else if a == 199 {
      assert LogTable(199) == 252 && ExpTable(252) == 199;
    }
    else if a == 200 {
      assert LogTable(200) == 188 && ExpTable(188) == 200;
    }
  }

  lemma ExpOfLogTableBlock25(a: byte)
    requires 201 <= a < 209
    ensures 0 <= LogTable(a) < GROUP_ORDER && ExpTable(LogTable(a)) == a
  {
    if a == 201 {
      assert LogTable(201) == 149 && ExpTable(149) == 201;
    }
    else if a == 202 {
      assert LogTable(202) == 207 && ExpTable(207) == 202;
    }
    else if a == 203 {
      assert LogTable(203) == 205 && ExpTable(205) == 203;
    }
    else if a == 204 {
      assert LogTable(204) == 55 && ExpTable(55) == 204;
    }
    else if a == 205 {
      assert LogTable(205) == 63 && ExpTable(63) == 205;
    }
    else if a == 206 {
      assert LogTable(206) == 91 && ExpTable(91) == 206;
    }
    else if a == 207 {
      assert LogTable(207) == 209 && ExpTable(209) == 207;
    }
    else if a == 208 {
      assert LogTable(208) == 83 && ExpTable(83) == 208;
    }
  }

  lemma ExpOfLogTableBlock26(a: byte)
    requires 209 <= a < 217
    ensures 0 <= LogTable(a) < GROUP_ORDER && ExpTable(LogTable(a)) == a
  {
    if a == 209 {
      assert LogTable(209) == 57 && ExpTable(57) == 209;
    }
    else if a == 210 {
      assert LogTable(210) == 132 && ExpTable(132) == 210;
    }
    else if a == 211 {
      assert LogTable(211) == 60 && ExpTable(60) == 211;
    }
    else if a == 212 {
      assert LogTable(212) == 65 && ExpTable(65) == 212;
    }
    else if a == 213 {
      assert LogTable(213) == 162 && ExpTable(162) == 213;
    }
    else if a == 214 {
      assert LogTable(214) == 109 && ExpTable(109) == 214;
    }
    else if a == 215 {
      assert LogTable(215) == 71 && ExpTable(71) == 215;
    }
    else if a == 216 {
      assert LogTable(216) == 20 && ExpTable(20) == 216;
    }
  }

  lemma ExpOfLogTableBlock27(a: byte)
    requires 217 <= a < 225
    ensures 0 <= LogTable(a) < GROUP_ORDER && ExpTable(LogTable(a)) == a
  {
    if a == 217 {
      assert LogTable(217) == 42 && ExpTable(42) == 217;
    }
    else if a == 218 {
      assert LogTable(218) == 158 && ExpTable(158) == 218;
    }
    else if a == 219 {
      assert LogTable(219) == 93 && ExpTable(93) == 219;
    }
    else if a == 220 {
      assert LogTable(220) == 86 && ExpTable(86) == 220;
    }
    else if a == 221 {
      assert LogTable(221) == 242 && ExpTable(242) == 221;
    }
    else if a == 222 {
      assert LogTable(222) == 211 && ExpTable(211) == 222;
    }
    else if a == 223 {
      assert LogTable(223) == 171 && ExpTable(171) == 223;
    }
    else if a == 224 {
      assert LogTable(224) == 68 && ExpTable(68) == 224;
    }
  }

  lemma ExpOfLogTableBlock28(a: byte)
    requires 225 <= a < 233
    ensures 0 <= LogTable(a) < GROUP_ORDER && ExpTable(LogTable(a)) == a
  {
    if a == 225 {
      assert LogTable(225) == 17 && ExpTable(17) == 225;
    }
    else if a == 226 {
      assert LogTable(226) == 146 && ExpTable(146) == 226;
    }
    else if a == 227 {
      assert LogTable(227) == 217 && ExpTable(217) == 227;
    }
    else if a == 228 {
      assert LogTable(228) == 35 && ExpTable(35) == 228;
    }
    else if a == 229 {
      assert LogTable(229) == 32 && ExpTable(32) == 229;
    }
    else if a == 230 {
      assert LogTable(230) == 46 && ExpTable(46) == 230;
    }
    else if a == 231 {
      assert LogTable(231) == 137 && ExpTable(137) == 231;
    }
    else if a == 232 {
      assert LogTable(232) == 180 && ExpTable(180) == 232;
    }
  }

  lemma ExpOfLogTableBlock29(a: byte)
    requires 233 <= a < 241
    ensures 0 <= LogTable(a) < GROUP_ORDER && ExpTable(LogTable(a)) == a
  {
    if a == 233 {
      assert LogTable(233) == 124 && ExpTable(124) == 233;
    }
    else if a == 234 {
      assert LogTable(234) == 184 && ExpTable(184) == 234;
    }
    else if a == 235 {
      assert LogTable(235) == 38 && ExpTable(38) == 235;
    }
    else if a == 236 {
      assert LogTable(236) == 119 && ExpTable(119) == 236;
    }
    else if a == 237 {
      assert LogTable(237) == 153 && ExpTable(153) == 237;
    }
    else if a == 238 {
      assert LogTable(238) == 227 && ExpTable(227) == 238;
    }
    else if a == 239 {
      assert LogTable(239) == 165 && ExpTable(165) == 239;
    }
    else if a == 240 {
      assert LogTable(240) == 103 && ExpTable(103) == 240;
    }
  }

  lemma ExpOfLogTableBlock30(a: byte)
    requires 241 <= a < 249
    ensures 0 <= LogTable(a) < GROUP_ORDER && ExpTable(LogTable(a)) == a
  {
    if a == 241 {
      assert LogTable(241) == 74 && ExpTable(74) == 241;
    }
    else if a == 242 {
      assert LogTable(242) == 237 && ExpTable(237) == 242;
    }
    else if a == 243 {
      assert LogTable(243) == 222 && ExpTable(222) == 243;
    }
    else if a == 244 {
      assert LogTable(244) == 197 && ExpTable(197) == 244;
    }
    else if a == 245 {
      assert LogTable(245) == 49 && ExpTable(49) == 245;
    }
    else if a == 246 {
      assert LogTable(246) == 254 && ExpTable(254) == 246;
    }
    else if a == 247 {
      assert LogTable(247) == 24 && ExpTable(24) == 247;
    }
    else if a == 248 {
      assert LogTable(248) == 13 && ExpTable(13) == 248;
    }
  }

  lemma ExpOfLogTableBlock31(a: byte)
    requires 249 <= a
    ensures 0 <= LogTable(a) < GROUP_ORDER && ExpTable(LogTable(a)) == a
  {
    if a == 249 {
      assert LogTable(249) == 99 && ExpTable(99) == 249;
    }
    else if a == 250 {
      assert LogTable(250) == 140 && ExpTable(140) == 250;
    }
    else if a == 251 {
      assert LogTable(251) == 128 && ExpTable(128) == 251;
    }
    else if a == 252 {
      assert LogTable(252) == 192 && ExpTable(192) == 252;
    }
    else if a == 253 {
      assert LogTable(253) == 247 && ExpTable(247) == 253;
    }
    else if a == 254 {
      assert LogTable(254) == 112 && ExpTable(112) == 254;
    }
    else if a == 255 {
      assert LogTable(255) == 7 && ExpTable(7) == 255;
    }
  }

  // ---------------------------------------------------------------------
  // The operations
  // ---------------------------------------------------------------------

  /** Range check at the field's entry points: `n` must be a byte. */
  function CheckRange(n: int): (r: Result<byte>)
    ensures r.Ok? <==> 0 <= n <= 255
    ensures r.Ok? ==> r.value == n
    ensures r.Err? ==> r.error == GF256RangeError
  {
    if 0 <= n <= 255 then Ok(n) else Err(GF256RangeError)
  }

  /** Field addition: bitwise exclusive or. */
  function Add(a: byte, b: byte): byte {
    XorBelow256(a, b);
    Xor(a, b)
  }

  /** Field subtraction, which coincides with addition. */
  function Sub(a: byte, b: byte): byte {
    Add(a, b)
  }

  /** The generator raised to `n`, with `n` taken modulo 255. */
  function Exp(n: int): (r: byte)
    ensures r != 0
  {
    LogOfExpTable(n % GROUP_ORDER);
    ExpTable(n % GROUP_ORDER)
  }

  /** The discrete logarithm; undefined at 0. */
  function Log(a: byte): (r: Result<int>)
    ensures r.Err? <==> a == 0
    ensures r.Err? ==> r.error == GF256UndefinedOperationError
    ensures r.Ok? ==> 0 <= r.value < GROUP_ORDER && Exp(r.value) == a
  {
    if a == 0 then Err(GF256UndefinedOperationError)
    else
      ExpOfLogTable(a);
      ModSmall(LogTable(a));
      Ok(LogTable(a))
  }

  /** Field multiplication: the sum of the logarithms, read back through the exponent table. */
  function Mul(a: byte, b: byte): (r: byte)
    ensures r == 0 <==> a == 0 || b == 0
  {
    if a == 0 || b == 0 then 0
    else
      LogOfExpTable((LogTable(a) + LogTable(b)) % GROUP_ORDER);
      ExpTable((LogTable(a) + LogTable(b)) % GROUP_ORDER)
  }

  /** Field division; undefined when the divisor is 0. */
  function Div(a: byte, b: byte): (r: Result<byte>)
    ensures r.Err? <==> b == 0
    ensures r.Err? ==> r.error == GF256UndefinedOperationError
    ensures r.Ok? ==> Mul(r.value, b) == a
  {
    if b == 0 then Err(GF256UndefinedOperationError)
    else if a == 0 then Ok(0)
    else
      DivCancels(a, b);
      Ok(ExpTable((LogTable(a) - LogTable(b)) % GROUP_ORDER))
  }

  /** The multiplicative inverse; undefined at 0. */
  function Inv(a: byte): (r: Result<byte>)
    ensures r.Err? <==> a == 0
    ensures r.Err? ==> r.error == GF256UndefinedOperationError
    ensures r.Ok? ==> Mul(a, r.value) == 1
  {
    if a == 0 then Err(GF256UndefinedOperationError)
    else
      InvCancels(a);
      Ok(Exp(GROUP_ORDER - LogTable(a)))
  }

  // ---------------------------------------------------------------------
  // Arithmetic on exponents
  // ---------------------------------------------------------------------

  lemma ModSmall(x: int)
    requires 0 <= x < GROUP_ORDER
    ensures x % GROUP_ORDER == x
  {
  }

  lemma SumMod(x: int, y: int)
    requires 0 <= x < GROUP_ORDER && 0 <= y < GROUP_ORDER
    ensures (x + y) % GROUP_ORDER == if x + y < GROUP_ORDER then x + y else x + y - GROUP_ORDER
  {
  }

  lemma DiffMod(x: int, y: int)
    requires 0 <= x < GROUP_ORDER && 0 <= y < GROUP_ORDER
    ensures (x - y) % GROUP_ORDER == if y <= x then x - y else x - y + GROUP_ORDER
  {
  }

  /** Helper for `Div`: the quotient computed with the tables times the divisor is the dividend. */
  lemma {:induction false} DivCancels(a: byte, b: byte)
    requires a != 0 && b != 0
    ensures Mul(ExpTable((LogTable(a) - LogTable(b)) % GROUP_ORDER), b) == a
  {
    ExpOfLogTable(a);
    ExpOfLogTable(b);
    var la, lb := LogTable(a), LogTable(b);
    DiffMod(la, lb);
    var d := (la - lb) % GROUP_ORDER;
    LogOfExpTable(d);
    SumMod(d, lb);
  }

  /** Helper for `Inv`. */
  lemma InvCancels(a: byte)
    requires a != 0
    ensures Mul(a, Exp(GROUP_ORDER - LogTable(a))) == 1
  {
    ExpOfLogTable(a);
    var la := LogTable(a);
    var e := (GROUP_ORDER - la) % GROUP_ORDER;
    if la == 0 {
      assert e == 0;
    } else {
      ModSmall(GROUP_ORDER - la);
    }
    LogOfExpTable(e);
    SumMod(la, e);
  }

  // ---------------------------------------------------------------------
  // Field laws
  // ---------------------------------------------------------------------

  /** Addition is commutative and associative, 0 is neutral and every
      element is its own negative. */
  lemma AddCommutes(a: byte, b: byte)
    ensures Add(a, b) == Add(b, a)
  {
    XorCommutes(a, b);
  }

  lemma AddAssociates(a: byte, b: byte, c: byte)
    ensures Add(Add(a, b), c) == Add(a, Add(b, c))
  {
    XorAssociates(a, b, c);
  }

  lemma AddZero(a: byte)
    ensures Add(a, 0) == a && Add(0, a) == a
  {
    XorZero(a);
  }

  lemma AddSelf(a: byte)
    ensures Add(a, a) == 0
  {
    XorSelf(a);
  }

  /** Two elements whose sum is 0 are equal; so adding b twice cancels. */
  lemma AddCancels(a: byte, b: byte)
    ensures Add(a, b) == 0 <==> a == b
    ensures Add(Add(a, b), b) == a
  {
    if Add(a, b) == 0 {
      XorZeroMeansEqual(a, b);
    }
    XorSelf(a);
    XorAssociates(a, b, b);
    XorSelf(b);
    XorZero(a);
  }

  lemma MulCommutes(a: byte, b: byte)
    ensures Mul(a, b) == Mul(b, a)
  {
  }

  lemma MulOne(a: byte)
    ensures Mul(1, a) == a && Mul(a, 1) == a
  {
    if a != 0 {
      ExpOfLogTable(a);
      ModSmall(LogTable(a));
      assert LogTable(1) == 0;
    }
  }

  lemma MulAssociates(a: byte, b: byte, c: byte)
    ensures Mul(Mul(a, b), c) == Mul(a, Mul(b, c))
  {
    if a != 0 && b != 0 && c != 0 {
      ExpOfLogTable(a);
      ExpOfLogTable(b);
      ExpOfLogTable(c);
      LogOfMul(a, b);
      LogOfMul(b, c);
      LogSumAssociates(LogTable(a), LogTable(b), LogTable(c));
    }
  }

  /** The logarithm of a product of nonzero bytes is the sum of their logarithms. */
  lemma LogOfMul(a: byte, b: byte)
    requires a != 0 && b != 0
    ensures Mul(a, b) != 0 && LogTable(Mul(a, b)) == (LogTable(a) + LogTable(b)) % GROUP_ORDER
  {
    LogOfExpTable((LogTable(a) + LogTable(b)) % GROUP_ORDER);
  }

  lemma LogSumAssociates(x: int, y: int, z: int)
    requires 0 <= x < GROUP_ORDER && 0 <= y < GROUP_ORDER && 0 <= z < GROUP_ORDER
    ensures ((x + y) % GROUP_ORDER + z) % GROUP_ORDER == (x + (y + z) % GROUP_ORDER) % GROUP_ORDER
  {
    SumMod(x, y);
    SumMod(y, z);
    SumMod((x + y) % GROUP_ORDER, z);
    SumMod(x, (y + z) % GROUP_ORDER);
  }

  /** Multiplication by x distributes over addition. */
  lemma XTimeIsLinear(u: byte, v: byte)
    ensures XTime(Add(u, v)) == Add(XTime(u), XTime(v))
  {
    if u < 128 && v < 128 {
      XorBelow128(u, v);
      XorDouble(u, v);
    } else if u >= 128 && v >= 128 {
      assert 128 + (u - 128) == u && 128 + (v - 128) == v;
      XTimeBothHigh(u - 128, v - 128);
    } else if u >= 128 {
      assert 128 + (u - 128) == u;
      XTimeOneHigh(u - 128, v);
    } else {
      assert 128 + (v - 128) == v;
      XTimeOneHigh(v - 128, u);
      XorCommutes(u, v);
      XorCommutes(XTime(u), XTime(v));
    }
  }

  /** XTimeIsLinear when both bytes have bit 7 set: the two reductions cancel. */
  lemma XTimeBothHigh(x: nat, y: nat)
    requires x < 128 && y < 128
    ensures XTime(Add(128 + x, 128 + y)) == Add(XTime(128 + x), XTime(128 + y))
  {
    XorTop128(x, y);
    XorBelow128(x, y);
    assert Add(128 + x, 128 + y) == Xor(x, y);
    XorDouble(x, y);
    assert XTime(128 + x) == Xor(2 * x, 0x1B);
    assert XTime(128 + y) == Xor(2 * y, 0x1B);
    XorRearranges(2 * x, 0x1B, 2 * y, 0x1B);
    XorSelf(0x1B);
    XorZero(Xor(2 * x, 2 * y));
  }

  /** XTimeIsLinear when only the first byte has bit 7 set: one reduction on each side. */
  lemma XTimeOneHigh(x: nat, y: nat)
    requires x < 128 && y < 128
    ensures XTime(Add(128 + x, y)) == Add(XTime(128 + x), XTime(y))
  {
    XorTop128(x, y);
    XorBelow128(x, y);
    var w := Xor(x, y);
    assert Add(128 + x, y) == 128 + w;
    assert XTime(128 + w) == Xor(2 * w, 0x1B);
    XorDouble(x, y);
    assert XTime(128 + x) == Xor(2 * x, 0x1B);
    XorAssociates(2 * x, 2 * y, 0x1B);
    XorCommutes(2 * y, 0x1B);
    XorAssociates(2 * x, 0x1B, 2 * y);
  }

  /** Multiplication by the generator distributes over addition. */
  lemma MulByGeneratorIsLinear(u: byte, v: byte)
    ensures MulByGenerator(Add(u, v)) == Add(MulByGenerator(u), MulByGenerator(v))
  {
    XTimeIsLinear(u, v);
    XorRearranges(XTime(u), XTime(v), u, v);
  }

  /** Multiplying through the tables by 3 agrees with MulByGenerator. */
  lemma MulByThree(w: byte)
    ensures Mul(3, w) == MulByGenerator(w)
  {
    LogOfExpTable(1);
    assert LogTable(3) == 1 by {
      assert ExpTable(1) == 3;
    }
    if w != 0 {
      ExpOfLogTable(w);
      SumMod(1, LogTable(w));
      ExpTableStep(LogTable(w));
    }
  }

  lemma MulByThreeIsLinear(b: byte, c: byte)
    ensures Mul(3, Add(b, c)) == Add(Mul(3, b), Mul(3, c))
  {
    MulByThree(b);
    MulByThree(c);
    MulByThree(Add(b, c));
    MulByGeneratorIsLinear(b, c);
  }

  /** 3^k is 3^(k-1) times 3, for every integer k. */
  lemma ExpSucc(k: int)
    ensures Mul(3, Exp(k - 1)) == Exp(k)
  {
    LogOfExpTable(1);
    assert LogTable(3) == 1 by {
      assert ExpTable(1) == 3;
    }
    var m := (k - 1) % GROUP_ORDER;
    LogOfExpTable(m);
    ExpSuccMod(k);
  }

  lemma ExpSuccMod(k: int)
    ensures (1 + (k - 1) % GROUP_ORDER) % GROUP_ORDER == k % GROUP_ORDER
  {
  }

  /** Multiplying by 3^k is multiplying by 3^(k-1), then by 3. */
  lemma MulByPowerStep(k: int, z: byte)
    ensures Mul(Exp(k), z) == Mul(3, Mul(Exp(k - 1), z))
  {
    ExpSucc(k);
    MulAssociates(3, Exp(k - 1), z);
  }

  lemma MulByOneIsLinear(b: byte, c: byte)
    ensures Mul(Exp(0), Add(b, c)) == Add(Mul(Exp(0), b), Mul(Exp(0), c))
  {
    assert Exp(0) == 1;
    MulOne(b);
    MulOne(c);
    MulOne(Add(b, c));
  }

  /** If multiplying by 3^(k-1) distributes over addition, so does multiplying by 3^k. */
  lemma MulByPowerIsLinearStep(k: int, b: byte, c: byte)
    requires Mul(Exp(k - 1), Add(b, c)) == Add(Mul(Exp(k - 1), b), Mul(Exp(k - 1), c))
    ensures Mul(Exp(k), Add(b, c)) == Add(Mul(Exp(k), b), Mul(Exp(k), c))
  {
    MulByPowerStep(k, b);
    MulByPowerStep(k, c);
    MulByPowerStep(k, Add(b, c));
    MulByThreeIsLinear(Mul(Exp(k - 1), b), Mul(Exp(k - 1), c));
  }

  /** Multiplication by 3^k distributes over addition, by induction on k. */
  lemma {:induction false} MulByPowerIsLinear(k: nat, b: byte, c: byte)
    ensures Mul(Exp(k), Add(b, c)) == Add(Mul(Exp(k), b), Mul(Exp(k), c))
  {
    if k == 0 {
      MulByOneIsLinear(b, c);
    } else {
      MulByPowerIsLinear(k - 1, b, c);
      MulByPowerIsLinearStep(k, b, c);
    }
  }

  lemma MulDistributes(a: byte, b: byte, c: byte)
    ensures Mul(a, Add(b, c)) == Add(Mul(a, b), Mul(a, c))
    ensures Mul(Add(b, c), a) == Add(Mul(b, a), Mul(c, a))
  {
    if a != 0 {
      ExpOfLogTable(a);
      ModSmall(LogTable(a));
      MulByPowerIsLinear(LogTable(a), b, c);
    }
    MulCommutes(Add(b, c), a);
    MulCommutes(b, a);
    MulCommutes(c, a);
  }

  /** A product is zero only when a factor is; so a nonzero factor cancels. */
  lemma MulCancels(a: byte, b: byte, c: byte)
    requires c != 0 && Mul(a, c) == Mul(b, c)
    ensures a == b
  {
    MulDistributes(c, a, b);
    MulCommutes(a, c);
    MulCommutes(b, c);
    AddSelf(Mul(a, c));
    AddCancels(a, b);
  }

  /** Dividing by b is multiplying by the inverse of b. */
  lemma DivIsMulInverse(a: byte, b: byte)
    requires b != 0
    ensures Div(a, b).value == Mul(a, Inv(b).value)
  {
    var q, i := Div(a, b).value, Inv(b).value;
    MulAssociates(a, i, b);
    MulCommutes(i, b);
    MulOne(a);
    MulCancels(q, Mul(a, i), b);
  }

  /** A byte's logarithm, read from an entry of the exponent table that yields it. */
  lemma LogIs(a: byte, l: nat)
    requires l < GROUP_ORDER && ExpTable(l) == a
    ensures LogTable(a) == l
  {
    LogOfExpTable(l);
  }

  /** The logarithm of 3^n is n reduced modulo 255. */
  lemma LogOfExp(n: int)
    ensures Log(Exp(n)) == Ok(n % GROUP_ORDER)
  {
    LogOfExpTable(n % GROUP_ORDER);
  }

  // ---------------------------------------------------------------------
  // The vectors of tests/unit/lib/secretSharing/gf256.test.ts
  // ---------------------------------------------------------------------

  lemma AddVectors()
    ensures Add(5, 3) == 6 && Add(7, 7) == 0 && Add(0, 255) == 255 && Add(255, 255) == 0
    ensures Sub(5, 3) == 6 && Sub(7, 7) == 0 && Sub(0, 255) == 255 && Sub(255, 255) == 0
  {
  }

  lemma MulVectors()
    ensures Mul(3, 4) == 12 && Mul(3, 0) == 0 && Mul(255, 200) == 99 && Mul(1, 200) == 200
  {
    assert LogTable(3) == 1 && LogTable(4) == 50;
    assert ExpTable(51) == 12;
    assert LogTable(255) == 7 && LogTable(200) == 188;
    assert ExpTable(195) == 99;
    assert LogTable(1) == 0 && LogTable(200) == 188;
    assert ExpTable(188) == 200;
  }

  lemma DivVectors()
    ensures Div(3, 4) == Ok(70) && Div(1, 255) == Ok(28) && Div(1, 1) == Ok(1)
    ensures Div(5, 0) == Err(GF256UndefinedOperationError)
  {
    assert LogTable(3) == 1 && LogTable(4) == 50;
    assert ExpTable(206) == 70;
    assert LogTable(1) == 0 && LogTable(255) == 7;
    assert ExpTable(248) == 28;
    assert LogTable(1) == 0 && LogTable(1) == 0;
    assert ExpTable(0) == 1;
  }

  lemma ExpLogVectors()
    ensures Exp(5) == 51 && Exp(255) == 1 && Exp(0) == 1
    ensures Log(3) == Ok(1) && Log(255) == Ok(7) && Log(0) == Err(GF256UndefinedOperationError)
  {
    assert ExpTable(5) == 51 && ExpTable(0) == 1;
    assert LogTable(3) == 1 && LogTable(255) == 7;
  }

  lemma InvVectors()
    ensures Inv(3) == Ok(246) && Inv(255) == Ok(28) && Inv(0) == Err(GF256UndefinedOperationError)
  {
    assert LogTable(3) == 1 && ExpTable(254) == 246;
    assert LogTable(255) == 7 && ExpTable(248) == 28;
  }

  lemma RangeVectors()
    ensures CheckRange(-1) == Err(GF256RangeError) && CheckRange(256) == Err(GF256RangeError)
    ensures CheckRange(0) == Ok(0) && CheckRange(255) == Ok(255)
  {
  }
}
