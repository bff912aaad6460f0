/** The static tables of the Huffman coder (Appendix B of RFC 7541) and the proof that the decoder's
    tree and the encoder's code words describe one and the same code.

    Each table is a chain of comparisons, 32 entries to a function, so that the verifier can
    look entries up cheaply. */
module HuffmanTables {
  /** A node of the decoder's array tree; `left == 0` marks a leaf holding the symbol `right`. */
  datatype TreeNode = TreeNode(left: nat, right: nat)

  const SYMBOLS: nat := 257
  const NODES: nat := 513
  const EOS: nat := 256

  function HuffmanCode0(s: nat): nat {
    if s < 1 then 0x1ff8 else if s < 2 then 0x7fffd8 else if s < 3 then 0xfffffe2 else if s < 4 then 0xfffffe3 else
    if s < 5 then 0xfffffe4 else if s < 6 then 0xfffffe5 else if s < 7 then 0xfffffe6 else if s < 8 then 0xfffffe7 else
    if s < 9 then 0xfffffe8 else if s < 10 then 0xffffea else if s < 11 then 0x3ffffffc else
    if s < 12 then 0xfffffe9 else
    if s < 13 then 0xfffffea else if s < 14 then 0x3ffffffd else if s < 15 then 0xfffffeb else
    if s < 16 then 0xfffffec else
    if s < 17 then 0xfffffed else if s < 18 then 0xfffffee else if s < 19 then 0xfffffef else
    if s < 20 then 0xffffff0 else
    if s < 21 then 0xffffff1 else if s < 22 then 0xffffff2 else if s < 23 then 0x3ffffffe else
    if s < 24 then 0xffffff3 else
    if s < 25 then 0xffffff4 else if s < 26 then 0xffffff5 else if s < 27 then 0xffffff6 else
    if s < 28 then 0xffffff7 else
    if s < 29 then 0xffffff8 else if s < 30 then 0xffffff9 else if s < 31 then 0xffffffa else 0xffffffb
  }

  function HuffmanCode1(s: nat): nat {
    if s < 33 then 0x14 else if s < 34 then 0x3f8 else if s < 35 then 0x3f9 else if s < 36 then 0xffa else
    if s < 37 then 0x1ff9 else if s < 38 then 0x15 else if s < 39 then 0xf8 else if s < 40 then 0x7fa else
    if s < 41 then 0x3fa else if s < 42 then 0x3fb else if s < 43 then 0xf9 else if s < 44 then 0x7fb else
    if s < 45 then 0xfa else if s < 46 then 0x16 else if s < 47 then 0x17 else if s < 48 then 0x18 else
    if s < 49 then 0x0 else if s < 50 then 0x1 else if s < 51 then 0x2 else if s < 52 then 0x19 else
    if s < 53 then 0x1a else if s < 54 then 0x1b else if s < 55 then 0x1c else if s < 56 then 0x1d else
    if s < 57 then 0x1e else if s < 58 then 0x1f else if s < 59 then 0x5c else if s < 60 then 0xfb else
    if s < 61 then 0x7ffc else if s < 62 then 0x20 else if s < 63 then 0xffb else 0x3fc
  }

  function HuffmanCode2(s: nat): nat {
    if s < 65 then 0x1ffa else if s < 66 then 0x21 else if s < 67 then 0x5d else if s < 68 then 0x5e else
    if s < 69 then 0x5f else if s < 70 then 0x60 else if s < 71 then 0x61 else if s < 72 then 0x62 else
    if s < 73 then 0x63 else if s < 74 then 0x64 else if s < 75 then 0x65 else if s < 76 then 0x66 else
    if s < 77 then 0x67 else if s < 78 then 0x68 else if s < 79 then 0x69 else if s < 80 then 0x6a else
    if s < 81 then 0x6b else if s < 82 then 0x6c else if s < 83 then 0x6d else if s < 84 then 0x6e else
    if s < 85 then 0x6f else if s < 86 then 0x70 else if s < 87 then 0x71 else if s < 88 then 0x72 else
    if s < 89 then 0xfc else if s < 90 then 0x73 else if s < 91 then 0xfd else if s < 92 then 0x1ffb else
    if s < 93 then 0x7fff0 else if s < 94 then 0x1ffc else if s < 95 then 0x3ffc else 0x22
  }

  function HuffmanCode3(s: nat): nat {
    if s < 97 then 0x7ffd else if s < 98 then 0x3 else if s < 99 then 0x23 else if s < 100 then 0x4 else
    if s < 101 then 0x24 else if s < 102 then 0x5 else if s < 103 then 0x25 else if s < 104 then 0x26 else
    if s < 105 then 0x27 else if s < 106 then 0x6 else if s < 107 then 0x74 else if s < 108 then 0x75 else
    if s < 109 then 0x28 else if s < 110 then 0x29 else if s < 111 then 0x2a else if s < 112 then 0x7 else
    if s < 113 then 0x2b else if s < 114 then 0x76 else if s < 115 then 0x2c else if s < 116 then 0x8 else
    if s < 117 then 0x9 else if s < 118 then 0x2d else if s < 119 then 0x77 else if s < 120 then 0x78 else
    if s < 121 then 0x79 else if s < 122 then 0x7a else if s < 123 then 0x7b else if s < 124 then 0x7ffe else
    if s < 125 then 0x7fc else if s < 126 then 0x3ffd else if s < 127 then 0x1ffd else 0xffffffc
  }

  function HuffmanCode4(s: nat): nat {
    if s < 129 then 0xfffe6 else if s < 130 then 0x3fffd2 else if s < 131 then 0xfffe7 else if s < 132 then 0xfffe8 else
    if s < 133 then 0x3fffd3 else if s < 134 then 0x3fffd4 else if s < 135 then 0x3fffd5 else
    if s < 136 then 0x7fffd9 else
    if s < 137 then 0x3fffd6 else if s < 138 then 0x7fffda else if s < 139 then 0x7fffdb else
    if s < 140 then 0x7fffdc else
    if s < 141 then 0x7fffdd else if s < 142 then 0x7fffde else if s < 143 then 0xffffeb else
    if s < 144 then 0x7fffdf else
    if s < 145 then 0xffffec else if s < 146 then 0xffffed else if s < 147 then 0x3fffd7 else
    if s < 148 then 0x7fffe0 else
    if s < 149 then 0xffffee else if s < 150 then 0x7fffe1 else if s < 151 then 0x7fffe2 else
    if s < 152 then 0x7fffe3 else
    if s < 153 then 0x7fffe4 else if s < 154 then 0x1fffdc else if s < 155 then 0x3fffd8 else
    if s < 156 then 0x7fffe5 else
    if s < 157 then 0x3fffd9 else if s < 158 then 0x7fffe6 else if s < 159 then 0x7fffe7 else 0xffffef
  }

  function HuffmanCode5(s: nat): nat {
    if s < 161 then 0x3fffda else if s < 162 then 0x1fffdd else if s < 163 then 0xfffe9 else
    if s < 164 then 0x3fffdb else
    if s < 165 then 0x3fffdc else if s < 166 then 0x7fffe8 else if s < 167 then 0x7fffe9 else
    if s < 168 then 0x1fffde else
    if s < 169 then 0x7fffea else if s < 170 then 0x3fffdd else if s < 171 then 0x3fffde else
    if s < 172 then 0xfffff0 else
    if s < 173 then 0x1fffdf else if s < 174 then 0x3fffdf else if s < 175 then 0x7fffeb else
    if s < 176 then 0x7fffec else
    if s < 177 then 0x1fffe0 else if s < 178 then 0x1fffe1 else if s < 179 then 0x3fffe0 else
    if s < 180 then 0x1fffe2 else
    if s < 181 then 0x7fffed else if s < 182 then 0x3fffe1 else if s < 183 then 0x7fffee else
    if s < 184 then 0x7fffef else
    if s < 185 then 0xfffea else if s < 186 then 0x3fffe2 else if s < 187 then 0x3fffe3 else
    if s < 188 then 0x3fffe4 else
    if s < 189 then 0x7ffff0 else if s < 190 then 0x3fffe5 else if s < 191 then 0x3fffe6 else 0x7ffff1
  }

  function HuffmanCode6(s: nat): nat {
    if s < 193 then 0x3ffffe0 else if s < 194 then 0x3ffffe1 else if s < 195 then 0xfffeb else
    if s < 196 then 0x7fff1 else
    if s < 197 then 0x3fffe7 else if s < 198 then 0x7ffff2 else if s < 199 then 0x3fffe8 else
    if s < 200 then 0x1ffffec else
    if s < 201 then 0x3ffffe2 else if s < 202 then 0x3ffffe3 else if s < 203 then 0x3ffffe4 else
    if s < 204 then 0x7ffffde else
    if s < 205 then 0x7ffffdf else if s < 206 then 0x3ffffe5 else if s < 207 then 0xfffff1 else
    if s < 208 then 0x1ffffed else
    if s < 209 then 0x7fff2 else if s < 210 then 0x1fffe3 else if s < 211 then 0x3ffffe6 else
    if s < 212 then 0x7ffffe0 else
    if s < 213 then 0x7ffffe1 else if s < 214 then 0x3ffffe7 else if s < 215 then 0x7ffffe2 else
    if s < 216 then 0xfffff2 else
    if s < 217 then 0x1fffe4 else if s < 218 then 0x1fffe5 else if s < 219 then 0x3ffffe8 else
    if s < 220 then 0x3ffffe9 else
    if s < 221 then 0xffffffd else if s < 222 then 0x7ffffe3 else if s < 223 then 0x7ffffe4 else 0x7ffffe5
  }

  function HuffmanCode7(s: nat): nat {
    if s < 225 then 0xfffec else if s < 226 then 0xfffff3 else if s < 227 then 0xfffed else
    if s < 228 then 0x1fffe6 else
    if s < 229 then 0x3fffe9 else if s < 230 then 0x1fffe7 else if s < 231 then 0x1fffe8 else
    if s < 232 then 0x7ffff3 else
    if s < 233 then 0x3fffea else if s < 234 then 0x3fffeb else if s < 235 then 0x1ffffee else
    if s < 236 then 0x1ffffef else
    if s < 237 then 0xfffff4 else if s < 238 then 0xfffff5 else if s < 239 then 0x3ffffea else
    if s < 240 then 0x7ffff4 else
    if s < 241 then 0x3ffffeb else if s < 242 then 0x7ffffe6 else if s < 243 then 0x3ffffec else
    if s < 244 then 0x3ffffed else
    if s < 245 then 0x7ffffe7 else if s < 246 then 0x7ffffe8 else if s < 247 then 0x7ffffe9 else
    if s < 248 then 0x7ffffea else
    if s < 249 then 0x7ffffeb else if s < 250 then 0xffffffe else if s < 251 then 0x7ffffec else
    if s < 252 then 0x7ffffed else
    if s < 253 then 0x7ffffee else if s < 254 then 0x7ffffef else if s < 255 then 0x7fffff0 else 0x3ffffee
  }

  /** HUFFMAN_CODES: the code word of each symbol, right aligned. */
  function HuffmanCode(s: nat): nat
    requires s < 257
  {
    if s < 32 then HuffmanCode0(s) else if s < 64 then HuffmanCode1(s) else if s < 96 then HuffmanCode2(s) else
    if s < 128 then HuffmanCode3(s) else
    if s < 160 then HuffmanCode4(s) else if s < 192 then HuffmanCode5(s) else if s < 224 then HuffmanCode6(s) else
    if s < 256 then HuffmanCode7(s) else
    0x3fffffff
  }

  function HuffmanCodeLen0(s: nat): nat {
    if s < 1 then 13 else if s < 2 then 23 else if s < 3 then 28 else if s < 4 then 28 else if s < 5 then 28 else
    if s < 6 then 28 else
    if s < 7 then 28 else if s < 8 then 28 else if s < 9 then 28 else if s < 10 then 24 else if s < 11 then 30 else
    if s < 12 then 28 else
    if s < 13 then 28 else if s < 14 then 30 else if s < 15 then 28 else if s < 16 then 28 else
    if s < 17 then 28 else if s < 18 then 28 else
    if s < 19 then 28 else if s < 20 then 28 else if s < 21 then 28 else if s < 22 then 28 else
    if s < 23 then 30 else if s < 24 then 28 else
    if s < 25 then 28 else if s < 26 then 28 else if s < 27 then 28 else if s < 28 then 28 else
    if s < 29 then 28 else if s < 30 then 28 else
    if s < 31 then 28 else 28
  }

  function HuffmanCodeLen1(s: nat): nat {
    if s < 33 then 6 else if s < 34 then 10 else if s < 35 then 10 else if s < 36 then 12 else
    if s < 37 then 13 else if s < 38 then 6 else
    if s < 39 then 8 else if s < 40 then 11 else if s < 41 then 10 else if s < 42 then 10 else
    if s < 43 then 8 else if s < 44 then 11 else
    if s < 45 then 8 else if s < 46 then 6 else if s < 47 then 6 else if s < 48 then 6 else if s < 49 then 5 else
    if s < 50 then 5 else
    if s < 51 then 5 else if s < 52 then 6 else if s < 53 then 6 else if s < 54 then 6 else if s < 55 then 6 else
    if s < 56 then 6 else
    if s < 57 then 6 else if s < 58 then 6 else if s < 59 then 7 else if s < 60 then 8 else if s < 61 then 15 else
    if s < 62 then 6 else
    if s < 63 then 12 else 10
  }

  function HuffmanCodeLen2(s: nat): nat {
    if s < 65 then 13 else if s < 66 then 6 else if s < 67 then 7 else if s < 68 then 7 else if s < 69 then 7 else
    if s < 70 then 7 else
    if s < 71 then 7 else if s < 72 then 7 else if s < 73 then 7 else if s < 74 then 7 else if s < 75 then 7 else
    if s < 76 then 7 else
    if s < 77 then 7 else if s < 78 then 7 else if s < 79 then 7 else if s < 80 then 7 else if s < 81 then 7 else
    if s < 82 then 7 else
    if s < 83 then 7 else if s < 84 then 7 else if s < 85 then 7 else if s < 86 then 7 else if s < 87 then 7 else
    if s < 88 then 7 else
    if s < 89 then 8 else if s < 90 then 7 else if s < 91 then 8 else if s < 92 then 13 else if s < 93 then 19 else
    if s < 94 then 13 else
    if s < 95 then 14 else 6
  }

  function HuffmanCodeLen3(s: nat): nat {
    if s < 97 then 15 else if s < 98 then 5 else if s < 99 then 6 else if s < 100 then 5 else
    if s < 101 then 6 else if s < 102 then 5 else
    if s < 103 then 6 else if s < 104 then 6 else if s < 105 then 6 else if s < 106 then 5 else
    if s < 107 then 7 else if s < 108 then 7 else
    if s < 109 then 6 else if s < 110 then 6 else if s < 111 then 6 else if s < 112 then 5 else
    if s < 113 then 6 else if s < 114 then 7 else
    if s < 115 then 6 else if s < 116 then 5 else if s < 117 then 5 else if s < 118 then 6 else
    if s < 119 then 7 else if s < 120 then 7 else
    if s < 121 then 7 else if s < 122 then 7 else if s < 123 then 7 else if s < 124 then 15 else
    if s < 125 then 11 else if s < 126 then 14 else
    if s < 127 then 13 else 28
  }

  function HuffmanCodeLen4(s: nat): nat {
    if s < 129 then 20 else if s < 130 then 22 else if s < 131 then 20 else if s < 132 then 20 else
    if s < 133 then 22 else if s < 134 then 22 else
    if s < 135 then 22 else if s < 136 then 23 else if s < 137 then 22 else if s < 138 then 23 else
    if s < 139 then 23 else if s < 140 then 23 else
    if s < 141 then 23 else if s < 142 then 23 else if s < 143 then 24 else if s < 144 then 23 else
    if s < 145 then 24 else if s < 146 then 24 else
    if s < 147 then 22 else if s < 148 then 23 else if s < 149 then 24 else if s < 150 then 23 else
    if s < 151 then 23 else if s < 152 then 23 else
    if s < 153 then 23 else if s < 154 then 21 else if s < 155 then 22 else if s < 156 then 23 else
    if s < 157 then 22 else if s < 158 then 23 else
    if s < 159 then 23 else 24
  }

  function HuffmanCodeLen5(s: nat): nat {
    if s < 161 then 22 else if s < 162 then 21 else if s < 163 then 20 else if s < 164 then 22 else
    if s < 165 then 22 else if s < 166 then 23 else
    if s < 167 then 23 else if s < 168 then 21 else if s < 169 then 23 else if s < 170 then 22 else
    if s < 171 then 22 else if s < 172 then 24 else
    if s < 173 then 21 else if s < 174 then 22 else if s < 175 then 23 else if s < 176 then 23 else
    if s < 177 then 21 else if s < 178 then 21 else
    if s < 179 then 22 else if s < 180 then 21 else if s < 181 then 23 else if s < 182 then 22 else
    if s < 183 then 23 else if s < 184 then 23 else
    if s < 185 then 20 else if s < 186 then 22 else if s < 187 then 22 else if s < 188 then 22 else
    if s < 189 then 23 else if s < 190 then 22 else
    if s < 191 then 22 else 23
  }

  function HuffmanCodeLen6(s: nat): nat {
    if s < 193 then 26 else if s < 194 then 26 else if s < 195 then 20 else if s < 196 then 19 else
    if s < 197 then 22 else if s < 198 then 23 else
    if s < 199 then 22 else if s < 200 then 25 else if s < 201 then 26 else if s < 202 then 26 else
    if s < 203 then 26 else if s < 204 then 27 else
    if s < 205 then 27 else if s < 206 then 26 else if s < 207 then 24 else if s < 208 then 25 else
    if s < 209 then 19 else if s < 210 then 21 else
    if s < 211 then 26 else if s < 212 then 27 else if s < 213 then 27 else if s < 214 then 26 else
    if s < 215 then 27 else if s < 216 then 24 else
    if s < 217 then 21 else if s < 218 then 21 else if s < 219 then 26 else if s < 220 then 26 else
    if s < 221 then 28 else if s < 222 then 27 else
    if s < 223 then 27 else 27
  }

  function HuffmanCodeLen7(s: nat): nat {
    if s < 225 then 20 else if s < 226 then 24 else if s < 227 then 20 else if s < 228 then 21 else
    if s < 229 then 22 else if s < 230 then 21 else
    if s < 231 then 21 else if s < 232 then 23 else if s < 233 then 22 else if s < 234 then 22 else
    if s < 235 then 25 else if s < 236 then 25 else
    if s < 237 then 24 else if s < 238 then 24 else if s < 239 then 26 else if s < 240 then 23 else
    if s < 241 then 26 else if s < 242 then 27 else
    if s < 243 then 26 else if s < 244 then 26 else if s < 245 then 27 else if s < 246 then 27 else
    if s < 247 then 27 else if s < 248 then 27 else
    if s < 249 then 27 else if s < 250 then 28 else if s < 251 then 27 else if s < 252 then 27 else
    if s < 253 then 27 else if s < 254 then 27 else
    if s < 255 then 27 else 26
  }

  /** HUFFMAN_CODE_LEN: the number of bits in each code word. */
  function HuffmanCodeLen(s: nat): nat
    requires s < 257
  {
    if s < 32 then HuffmanCodeLen0(s) else if s < 64 then HuffmanCodeLen1(s) else
    if s < 96 then HuffmanCodeLen2(s) else if s < 128 then HuffmanCodeLen3(s) else
    if s < 160 then HuffmanCodeLen4(s) else if s < 192 then HuffmanCodeLen5(s) else
    if s < 224 then HuffmanCodeLen6(s) else if s < 256 then HuffmanCodeLen7(s) else
    30
  }

  function TreeList0(i: nat): TreeNode {
    if i < 1 then TreeNode(1, 44) else if i < 2 then TreeNode(2, 17) else if i < 3 then TreeNode(3, 10) else
    if i < 4 then TreeNode(4, 7) else if i < 5 then TreeNode(5, 6) else if i < 6 then TreeNode(0, 48) else
    if i < 7 then TreeNode(0, 49) else if i < 8 then TreeNode(8, 9) else if i < 9 then TreeNode(0, 50) else
    if i < 10 then TreeNode(0, 97) else if i < 11 then TreeNode(11, 14) else if i < 12 then TreeNode(12, 13) else
    if i < 13 then TreeNode(0, 99) else if i < 14 then TreeNode(0, 101) else if i < 15 then TreeNode(15, 16) else
    if i < 16 then TreeNode(0, 105) else if i < 17 then TreeNode(0, 111) else if i < 18 then TreeNode(18, 29) else
    if i < 19 then TreeNode(19, 22) else if i < 20 then TreeNode(20, 21) else if i < 21 then TreeNode(0, 115) else
    if i < 22 then TreeNode(0, 116) else if i < 23 then TreeNode(23, 26) else if i < 24 then TreeNode(24, 25) else
    if i < 25 then TreeNode(0, 32) else if i < 26 then TreeNode(0, 37) else if i < 27 then TreeNode(27, 28) else
    if i < 28 then TreeNode(0, 45) else if i < 29 then TreeNode(0, 46) else if i < 30 then TreeNode(30, 37) else
    if i < 31 then TreeNode(31, 34) else TreeNode(32, 33)
  }

  function TreeList1(i: nat): TreeNode {
    if i < 33 then TreeNode(0, 47) else if i < 34 then TreeNode(0, 51) else if i < 35 then TreeNode(35, 36) else
    if i < 36 then TreeNode(0, 52) else if i < 37 then TreeNode(0, 53) else if i < 38 then TreeNode(38, 41) else
    if i < 39 then TreeNode(39, 40) else if i < 40 then TreeNode(0, 54) else if i < 41 then TreeNode(0, 55) else
    if i < 42 then TreeNode(42, 43) else if i < 43 then TreeNode(0, 56) else if i < 44 then TreeNode(0, 57) else
    if i < 45 then TreeNode(45, 80) else if i < 46 then TreeNode(46, 61) else if i < 47 then TreeNode(47, 54) else
    if i < 48 then TreeNode(48, 51) else if i < 49 then TreeNode(49, 50) else if i < 50 then TreeNode(0, 61) else
    if i < 51 then TreeNode(0, 65) else if i < 52 then TreeNode(52, 53) else if i < 53 then TreeNode(0, 95) else
    if i < 54 then TreeNode(0, 98) else if i < 55 then TreeNode(55, 58) else if i < 56 then TreeNode(56, 57) else
    if i < 57 then TreeNode(0, 100) else if i < 58 then TreeNode(0, 102) else if i < 59 then TreeNode(59, 60) else
    if i < 60 then TreeNode(0, 103) else if i < 61 then TreeNode(0, 104) else if i < 62 then TreeNode(62, 69) else
    if i < 63 then TreeNode(63, 66) else TreeNode(64, 65)
  }

  function TreeList2(i: nat): TreeNode {
    if i < 65 then TreeNode(0, 108) else if i < 66 then TreeNode(0, 109) else if i < 67 then TreeNode(67, 68) else
    if i < 68 then TreeNode(0, 110) else if i < 69 then TreeNode(0, 112) else if i < 70 then TreeNode(70, 73) else
    if i < 71 then TreeNode(71, 72) else if i < 72 then TreeNode(0, 114) else if i < 73 then TreeNode(0, 117) else
    if i < 74 then TreeNode(74, 77) else if i < 75 then TreeNode(75, 76) else if i < 76 then TreeNode(0, 58) else
    if i < 77 then TreeNode(0, 66) else if i < 78 then TreeNode(78, 79) else if i < 79 then TreeNode(0, 67) else
    if i < 80 then TreeNode(0, 68) else if i < 81 then TreeNode(81, 112) else if i < 82 then TreeNode(82, 97) else
    if i < 83 then TreeNode(83, 90) else if i < 84 then TreeNode(84, 87) else if i < 85 then TreeNode(85, 86) else
    if i < 86 then TreeNode(0, 69) else if i < 87 then TreeNode(0, 70) else if i < 88 then TreeNode(88, 89) else
    if i < 89 then TreeNode(0, 71) else if i < 90 then TreeNode(0, 72) else if i < 91 then TreeNode(91, 94) else
    if i < 92 then TreeNode(92, 93) else if i < 93 then TreeNode(0, 73) else if i < 94 then TreeNode(0, 74) else
    if i < 95 then TreeNode(95, 96) else TreeNode(0, 75)
  }

  function TreeList3(i: nat): TreeNode {
    if i < 97 then TreeNode(0, 76) else if i < 98 then TreeNode(98, 105) else if i < 99 then TreeNode(99, 102) else
    if i < 100 then TreeNode(100, 101) else if i < 101 then TreeNode(0, 77) else if i < 102 then TreeNode(0, 78) else
    if i < 103 then TreeNode(103, 104) else if i < 104 then TreeNode(0, 79) else if i < 105 then TreeNode(0, 80) else
    if i < 106 then TreeNode(106, 109) else if i < 107 then TreeNode(107, 108) else if i < 108 then TreeNode(0, 81) else
    if i < 109 then TreeNode(0, 82) else if i < 110 then TreeNode(110, 111) else if i < 111 then TreeNode(0, 83) else
    if i < 112 then TreeNode(0, 84) else if i < 113 then TreeNode(113, 128) else if i < 114 then TreeNode(114, 121) else
    if i < 115 then TreeNode(115, 118) else if i < 116 then TreeNode(116, 117) else if i < 117 then TreeNode(0, 85) else
    if i < 118 then TreeNode(0, 86) else if i < 119 then TreeNode(119, 120) else if i < 120 then TreeNode(0, 87) else
    if i < 121 then TreeNode(0, 89) else if i < 122 then TreeNode(122, 125) else if i < 123 then TreeNode(123, 124) else
    if i < 124 then TreeNode(0, 106) else if i < 125 then TreeNode(0, 107) else if i < 126 then TreeNode(126, 127) else
    if i < 127 then TreeNode(0, 113) else TreeNode(0, 118)
  }

  function TreeList4(i: nat): TreeNode {
    if i < 129 then TreeNode(129, 136) else if i < 130 then TreeNode(130, 133) else
    if i < 131 then TreeNode(131, 132) else
    if i < 132 then TreeNode(0, 119) else if i < 133 then TreeNode(0, 120) else if i < 134 then TreeNode(134, 135) else
    if i < 135 then TreeNode(0, 121) else if i < 136 then TreeNode(0, 122) else if i < 137 then TreeNode(137, 144) else
    if i < 138 then TreeNode(138, 141) else if i < 139 then TreeNode(139, 140) else if i < 140 then TreeNode(0, 38) else
    if i < 141 then TreeNode(0, 42) else if i < 142 then TreeNode(142, 143) else if i < 143 then TreeNode(0, 44) else
    if i < 144 then TreeNode(0, 59) else if i < 145 then TreeNode(145, 148) else if i < 146 then TreeNode(146, 147) else
    if i < 147 then TreeNode(0, 88) else if i < 148 then TreeNode(0, 90) else if i < 149 then TreeNode(149, 156) else
    if i < 150 then TreeNode(150, 153) else if i < 151 then TreeNode(151, 152) else if i < 152 then TreeNode(0, 33) else
    if i < 153 then TreeNode(0, 34) else if i < 154 then TreeNode(154, 155) else if i < 155 then TreeNode(0, 40) else
    if i < 156 then TreeNode(0, 41) else if i < 157 then TreeNode(157, 162) else if i < 158 then TreeNode(158, 159) else
    if i < 159 then TreeNode(0, 63) else TreeNode(160, 161)
  }

  function TreeList5(i: nat): TreeNode {
    if i < 161 then TreeNode(0, 39) else if i < 162 then TreeNode(0, 43) else if i < 163 then TreeNode(163, 168) else
    if i < 164 then TreeNode(164, 165) else if i < 165 then TreeNode(0, 124) else
    if i < 166 then TreeNode(166, 167) else
    if i < 167 then TreeNode(0, 35) else if i < 168 then TreeNode(0, 62) else if i < 169 then TreeNode(169, 176) else
    if i < 170 then TreeNode(170, 173) else if i < 171 then TreeNode(171, 172) else if i < 172 then TreeNode(0, 0) else
    if i < 173 then TreeNode(0, 36) else if i < 174 then TreeNode(174, 175) else if i < 175 then TreeNode(0, 64) else
    if i < 176 then TreeNode(0, 91) else if i < 177 then TreeNode(177, 180) else if i < 178 then TreeNode(178, 179) else
    if i < 179 then TreeNode(0, 93) else if i < 180 then TreeNode(0, 126) else if i < 181 then TreeNode(181, 184) else
    if i < 182 then TreeNode(182, 183) else if i < 183 then TreeNode(0, 94) else if i < 184 then TreeNode(0, 125) else
    if i < 185 then TreeNode(185, 188) else if i < 186 then TreeNode(186, 187) else if i < 187 then TreeNode(0, 60) else
    if i < 188 then TreeNode(0, 96) else if i < 189 then TreeNode(189, 190) else if i < 190 then TreeNode(0, 123) else
    if i < 191 then TreeNode(191, 220) else TreeNode(192, 201)
  }

  function TreeList6(i: nat): TreeNode {
    if i < 193 then TreeNode(193, 196) else if i < 194 then TreeNode(194, 195) else if i < 195 then TreeNode(0, 92) else
    if i < 196 then TreeNode(0, 195) else if i < 197 then TreeNode(197, 198) else if i < 198 then TreeNode(0, 208) else
    if i < 199 then TreeNode(199, 200) else if i < 200 then TreeNode(0, 128) else if i < 201 then TreeNode(0, 130) else
    if i < 202 then TreeNode(202, 209) else if i < 203 then TreeNode(203, 206) else
    if i < 204 then TreeNode(204, 205) else
    if i < 205 then TreeNode(0, 131) else if i < 206 then TreeNode(0, 162) else if i < 207 then TreeNode(207, 208) else
    if i < 208 then TreeNode(0, 184) else if i < 209 then TreeNode(0, 194) else if i < 210 then TreeNode(210, 213) else
    if i < 211 then TreeNode(211, 212) else if i < 212 then TreeNode(0, 224) else if i < 213 then TreeNode(0, 226) else
    if i < 214 then TreeNode(214, 217) else if i < 215 then TreeNode(215, 216) else
    if i < 216 then TreeNode(0, 153) else
    if i < 217 then TreeNode(0, 161) else if i < 218 then TreeNode(218, 219) else if i < 219 then TreeNode(0, 167) else
    if i < 220 then TreeNode(0, 172) else if i < 221 then TreeNode(221, 266) else
    if i < 222 then TreeNode(222, 237) else
    if i < 223 then TreeNode(223, 230) else TreeNode(224, 227)
  }

  function TreeList7(i: nat): TreeNode {
    if i < 225 then TreeNode(225, 226) else if i < 226 then TreeNode(0, 176) else if i < 227 then TreeNode(0, 177) else
    if i < 228 then TreeNode(228, 229) else if i < 229 then TreeNode(0, 179) else if i < 230 then TreeNode(0, 209) else
    if i < 231 then TreeNode(231, 234) else if i < 232 then TreeNode(232, 233) else
    if i < 233 then TreeNode(0, 216) else
    if i < 234 then TreeNode(0, 217) else if i < 235 then TreeNode(235, 236) else if i < 236 then TreeNode(0, 227) else
    if i < 237 then TreeNode(0, 229) else if i < 238 then TreeNode(238, 251) else
    if i < 239 then TreeNode(239, 244) else
    if i < 240 then TreeNode(240, 241) else if i < 241 then TreeNode(0, 230) else
    if i < 242 then TreeNode(242, 243) else
    if i < 243 then TreeNode(0, 129) else if i < 244 then TreeNode(0, 132) else if i < 245 then TreeNode(245, 248) else
    if i < 246 then TreeNode(246, 247) else if i < 247 then TreeNode(0, 133) else if i < 248 then TreeNode(0, 134) else
    if i < 249 then TreeNode(249, 250) else if i < 250 then TreeNode(0, 136) else if i < 251 then TreeNode(0, 146) else
    if i < 252 then TreeNode(252, 259) else if i < 253 then TreeNode(253, 256) else
    if i < 254 then TreeNode(254, 255) else
    if i < 255 then TreeNode(0, 154) else TreeNode(0, 156)
  }

  function TreeList8(i: nat): TreeNode {
    if i < 257 then TreeNode(257, 258) else if i < 258 then TreeNode(0, 160) else if i < 259 then TreeNode(0, 163) else
    if i < 260 then TreeNode(260, 263) else if i < 261 then TreeNode(261, 262) else
    if i < 262 then TreeNode(0, 164) else
    if i < 263 then TreeNode(0, 169) else if i < 264 then TreeNode(264, 265) else if i < 265 then TreeNode(0, 170) else
    if i < 266 then TreeNode(0, 173) else if i < 267 then TreeNode(267, 306) else
    if i < 268 then TreeNode(268, 283) else
    if i < 269 then TreeNode(269, 276) else if i < 270 then TreeNode(270, 273) else
    if i < 271 then TreeNode(271, 272) else
    if i < 272 then TreeNode(0, 178) else if i < 273 then TreeNode(0, 181) else if i < 274 then TreeNode(274, 275) else
    if i < 275 then TreeNode(0, 185) else if i < 276 then TreeNode(0, 186) else if i < 277 then TreeNode(277, 280) else
    if i < 278 then TreeNode(278, 279) else if i < 279 then TreeNode(0, 187) else if i < 280 then TreeNode(0, 189) else
    if i < 281 then TreeNode(281, 282) else if i < 282 then TreeNode(0, 190) else if i < 283 then TreeNode(0, 196) else
    if i < 284 then TreeNode(284, 291) else if i < 285 then TreeNode(285, 288) else
    if i < 286 then TreeNode(286, 287) else
    if i < 287 then TreeNode(0, 198) else TreeNode(0, 228)
  }

  function TreeList9(i: nat): TreeNode {
    if i < 289 then TreeNode(289, 290) else if i < 290 then TreeNode(0, 232) else if i < 291 then TreeNode(0, 233) else
    if i < 292 then TreeNode(292, 299) else if i < 293 then TreeNode(293, 296) else
    if i < 294 then TreeNode(294, 295) else
    if i < 295 then TreeNode(0, 1) else if i < 296 then TreeNode(0, 135) else if i < 297 then TreeNode(297, 298) else
    if i < 298 then TreeNode(0, 137) else if i < 299 then TreeNode(0, 138) else if i < 300 then TreeNode(300, 303) else
    if i < 301 then TreeNode(301, 302) else if i < 302 then TreeNode(0, 139) else if i < 303 then TreeNode(0, 140) else
    if i < 304 then TreeNode(304, 305) else if i < 305 then TreeNode(0, 141) else if i < 306 then TreeNode(0, 143) else
    if i < 307 then TreeNode(307, 338) else if i < 308 then TreeNode(308, 323) else
    if i < 309 then TreeNode(309, 316) else
    if i < 310 then TreeNode(310, 313) else if i < 311 then TreeNode(311, 312) else
    if i < 312 then TreeNode(0, 147) else
    if i < 313 then TreeNode(0, 149) else if i < 314 then TreeNode(314, 315) else if i < 315 then TreeNode(0, 150) else
    if i < 316 then TreeNode(0, 151) else if i < 317 then TreeNode(317, 320) else
    if i < 318 then TreeNode(318, 319) else
    if i < 319 then TreeNode(0, 152) else TreeNode(0, 155)
  }

  function TreeList10(i: nat): TreeNode {
    if i < 321 then TreeNode(321, 322) else if i < 322 then TreeNode(0, 157) else if i < 323 then TreeNode(0, 158) else
    if i < 324 then TreeNode(324, 331) else if i < 325 then TreeNode(325, 328) else
    if i < 326 then TreeNode(326, 327) else
    if i < 327 then TreeNode(0, 165) else if i < 328 then TreeNode(0, 166) else if i < 329 then TreeNode(329, 330) else
    if i < 330 then TreeNode(0, 168) else if i < 331 then TreeNode(0, 174) else if i < 332 then TreeNode(332, 335) else
    if i < 333 then TreeNode(333, 334) else if i < 334 then TreeNode(0, 175) else if i < 335 then TreeNode(0, 180) else
    if i < 336 then TreeNode(336, 337) else if i < 337 then TreeNode(0, 182) else if i < 338 then TreeNode(0, 183) else
    if i < 339 then TreeNode(339, 360) else if i < 340 then TreeNode(340, 347) else
    if i < 341 then TreeNode(341, 344) else
    if i < 342 then TreeNode(342, 343) else if i < 343 then TreeNode(0, 188) else if i < 344 then TreeNode(0, 191) else
    if i < 345 then TreeNode(345, 346) else if i < 346 then TreeNode(0, 197) else if i < 347 then TreeNode(0, 231) else
    if i < 348 then TreeNode(348, 353) else if i < 349 then TreeNode(349, 350) else
    if i < 350 then TreeNode(0, 239) else
    if i < 351 then TreeNode(351, 352) else TreeNode(0, 9)
  }

  function TreeList11(i: nat): TreeNode {
    if i < 353 then TreeNode(0, 142) else if i < 354 then TreeNode(354, 357) else
    if i < 355 then TreeNode(355, 356) else
    if i < 356 then TreeNode(0, 144) else if i < 357 then TreeNode(0, 145) else if i < 358 then TreeNode(358, 359) else
    if i < 359 then TreeNode(0, 148) else if i < 360 then TreeNode(0, 159) else if i < 361 then TreeNode(361, 380) else
    if i < 362 then TreeNode(362, 369) else if i < 363 then TreeNode(363, 366) else
    if i < 364 then TreeNode(364, 365) else
    if i < 365 then TreeNode(0, 171) else if i < 366 then TreeNode(0, 206) else if i < 367 then TreeNode(367, 368) else
    if i < 368 then TreeNode(0, 215) else if i < 369 then TreeNode(0, 225) else if i < 370 then TreeNode(370, 373) else
    if i < 371 then TreeNode(371, 372) else if i < 372 then TreeNode(0, 236) else if i < 373 then TreeNode(0, 237) else
    if i < 374 then TreeNode(374, 377) else if i < 375 then TreeNode(375, 376) else
    if i < 376 then TreeNode(0, 199) else
    if i < 377 then TreeNode(0, 207) else if i < 378 then TreeNode(378, 379) else if i < 379 then TreeNode(0, 234) else
    if i < 380 then TreeNode(0, 235) else if i < 381 then TreeNode(381, 414) else
    if i < 382 then TreeNode(382, 397) else
    if i < 383 then TreeNode(383, 390) else TreeNode(384, 387)
  }

  function TreeList12(i: nat): TreeNode {
    if i < 385 then TreeNode(385, 386) else if i < 386 then TreeNode(0, 192) else if i < 387 then TreeNode(0, 193) else
    if i < 388 then TreeNode(388, 389) else if i < 389 then TreeNode(0, 200) else if i < 390 then TreeNode(0, 201) else
    if i < 391 then TreeNode(391, 394) else if i < 392 then TreeNode(392, 393) else
    if i < 393 then TreeNode(0, 202) else
    if i < 394 then TreeNode(0, 205) else if i < 395 then TreeNode(395, 396) else if i < 396 then TreeNode(0, 210) else
    if i < 397 then TreeNode(0, 213) else if i < 398 then TreeNode(398, 405) else
    if i < 399 then TreeNode(399, 402) else
    if i < 400 then TreeNode(400, 401) else if i < 401 then TreeNode(0, 218) else if i < 402 then TreeNode(0, 219) else
    if i < 403 then TreeNode(403, 404) else if i < 404 then TreeNode(0, 238) else if i < 405 then TreeNode(0, 240) else
    if i < 406 then TreeNode(406, 409) else if i < 407 then TreeNode(407, 408) else
    if i < 408 then TreeNode(0, 242) else
    if i < 409 then TreeNode(0, 243) else if i < 410 then TreeNode(410, 411) else if i < 411 then TreeNode(0, 255) else
    if i < 412 then TreeNode(412, 413) else if i < 413 then TreeNode(0, 203) else if i < 414 then TreeNode(0, 204) else
    if i < 415 then TreeNode(415, 446) else TreeNode(416, 431)
  }

  function TreeList13(i: nat): TreeNode {
    if i < 417 then TreeNode(417, 424) else if i < 418 then TreeNode(418, 421) else
    if i < 419 then TreeNode(419, 420) else
    if i < 420 then TreeNode(0, 211) else if i < 421 then TreeNode(0, 212) else if i < 422 then TreeNode(422, 423) else
    if i < 423 then TreeNode(0, 214) else if i < 424 then TreeNode(0, 221) else if i < 425 then TreeNode(425, 428) else
    if i < 426 then TreeNode(426, 427) else if i < 427 then TreeNode(0, 222) else if i < 428 then TreeNode(0, 223) else
    if i < 429 then TreeNode(429, 430) else if i < 430 then TreeNode(0, 241) else if i < 431 then TreeNode(0, 244) else
    if i < 432 then TreeNode(432, 439) else if i < 433 then TreeNode(433, 436) else
    if i < 434 then TreeNode(434, 435) else
    if i < 435 then TreeNode(0, 245) else if i < 436 then TreeNode(0, 246) else if i < 437 then TreeNode(437, 438) else
    if i < 438 then TreeNode(0, 247) else if i < 439 then TreeNode(0, 248) else if i < 440 then TreeNode(440, 443) else
    if i < 441 then TreeNode(441, 442) else if i < 442 then TreeNode(0, 250) else if i < 443 then TreeNode(0, 251) else
    if i < 444 then TreeNode(444, 445) else if i < 445 then TreeNode(0, 252) else if i < 446 then TreeNode(0, 253) else
    if i < 447 then TreeNode(447, 476) else TreeNode(448, 461)
  }

  function TreeList14(i: nat): TreeNode {
    if i < 449 then TreeNode(449, 454) else if i < 450 then TreeNode(450, 451) else
    if i < 451 then TreeNode(0, 254) else
    if i < 452 then TreeNode(452, 453) else if i < 453 then TreeNode(0, 2) else if i < 454 then TreeNode(0, 3) else
    if i < 455 then TreeNode(455, 458) else if i < 456 then TreeNode(456, 457) else if i < 457 then TreeNode(0, 4) else
    if i < 458 then TreeNode(0, 5) else if i < 459 then TreeNode(459, 460) else if i < 460 then TreeNode(0, 6) else
    if i < 461 then TreeNode(0, 7) else if i < 462 then TreeNode(462, 469) else if i < 463 then TreeNode(463, 466) else
    if i < 464 then TreeNode(464, 465) else if i < 465 then TreeNode(0, 8) else if i < 466 then TreeNode(0, 11) else
    if i < 467 then TreeNode(467, 468) else if i < 468 then TreeNode(0, 12) else if i < 469 then TreeNode(0, 14) else
    if i < 470 then TreeNode(470, 473) else if i < 471 then TreeNode(471, 472) else if i < 472 then TreeNode(0, 15) else
    if i < 473 then TreeNode(0, 16) else if i < 474 then TreeNode(474, 475) else if i < 475 then TreeNode(0, 17) else
    if i < 476 then TreeNode(0, 18) else if i < 477 then TreeNode(477, 492) else if i < 478 then TreeNode(478, 485) else
    if i < 479 then TreeNode(479, 482) else TreeNode(480, 481)
  }

  function TreeList15(i: nat): TreeNode {
    if i < 481 then TreeNode(0, 19) else if i < 482 then TreeNode(0, 20) else if i < 483 then TreeNode(483, 484) else
    if i < 484 then TreeNode(0, 21) else if i < 485 then TreeNode(0, 23) else if i < 486 then TreeNode(486, 489) else
    if i < 487 then TreeNode(487, 488) else if i < 488 then TreeNode(0, 24) else if i < 489 then TreeNode(0, 25) else
    if i < 490 then TreeNode(490, 491) else if i < 491 then TreeNode(0, 26) else if i < 492 then TreeNode(0, 27) else
    if i < 493 then TreeNode(493, 500) else if i < 494 then TreeNode(494, 497) else
    if i < 495 then TreeNode(495, 496) else
    if i < 496 then TreeNode(0, 28) else if i < 497 then TreeNode(0, 29) else if i < 498 then TreeNode(498, 499) else
    if i < 499 then TreeNode(0, 30) else if i < 500 then TreeNode(0, 31) else if i < 501 then TreeNode(501, 504) else
    if i < 502 then TreeNode(502, 503) else if i < 503 then TreeNode(0, 127) else if i < 504 then TreeNode(0, 220) else
    if i < 505 then TreeNode(505, 506) else if i < 506 then TreeNode(0, 249) else
    if i < 507 then TreeNode(507, 510) else
    if i < 508 then TreeNode(508, 509) else if i < 509 then TreeNode(0, 10) else if i < 510 then TreeNode(0, 13) else
    if i < 511 then TreeNode(511, 512) else TreeNode(0, 22)
  }

  /** TREE_LIST: the decoder's tree in preorder, the root at 0. */
  function TreeList(i: nat): TreeNode
    requires i < 513
  {
    if i < 32 then TreeList0(i) else if i < 64 then TreeList1(i) else if i < 96 then TreeList2(i) else
    if i < 128 then TreeList3(i) else
    if i < 160 then TreeList4(i) else if i < 192 then TreeList5(i) else if i < 224 then TreeList6(i) else
    if i < 256 then TreeList7(i) else
    if i < 288 then TreeList8(i) else if i < 320 then TreeList9(i) else if i < 352 then TreeList10(i) else
    if i < 384 then TreeList11(i) else
    if i < 416 then TreeList12(i) else if i < 448 then TreeList13(i) else if i < 480 then TreeList14(i) else
    if i < 512 then TreeList15(i) else
    TreeNode(0, 256)
  }

  function LeafOf0(s: nat): nat {
    if s < 1 then 171 else if s < 2 then 294 else if s < 3 then 452 else if s < 4 then 453 else
    if s < 5 then 456 else if s < 6 then 457 else
    if s < 7 then 459 else if s < 8 then 460 else if s < 9 then 464 else if s < 10 then 351 else
    if s < 11 then 508 else if s < 12 then 465 else
    if s < 13 then 467 else if s < 14 then 509 else if s < 15 then 468 else if s < 16 then 471 else
    if s < 17 then 472 else if s < 18 then 474 else
    if s < 19 then 475 else if s < 20 then 480 else if s < 21 then 481 else if s < 22 then 483 else
    if s < 23 then 511 else if s < 24 then 484 else
    if s < 25 then 487 else if s < 26 then 488 else if s < 27 then 490 else if s < 28 then 491 else
    if s < 29 then 495 else if s < 30 then 496 else
    if s < 31 then 498 else 499
  }

  function LeafOf1(s: nat): nat {
    if s < 33 then 24 else if s < 34 then 151 else if s < 35 then 152 else if s < 36 then 166 else
    if s < 37 then 172 else if s < 38 then 25 else
    if s < 39 then 139 else if s < 40 then 160 else if s < 41 then 154 else if s < 42 then 155 else
    if s < 43 then 140 else if s < 44 then 161 else
    if s < 45 then 142 else if s < 46 then 27 else if s < 47 then 28 else if s < 48 then 32 else
    if s < 49 then 5 else if s < 50 then 6 else
    if s < 51 then 8 else if s < 52 then 33 else if s < 53 then 35 else if s < 54 then 36 else
    if s < 55 then 39 else if s < 56 then 40 else
    if s < 57 then 42 else if s < 58 then 43 else if s < 59 then 75 else if s < 60 then 143 else
    if s < 61 then 186 else if s < 62 then 49 else
    if s < 63 then 167 else 158
  }

  function LeafOf2(s: nat): nat {
    if s < 65 then 174 else if s < 66 then 50 else if s < 67 then 76 else if s < 68 then 78 else
    if s < 69 then 79 else if s < 70 then 85 else
    if s < 71 then 86 else if s < 72 then 88 else if s < 73 then 89 else if s < 74 then 92 else
    if s < 75 then 93 else if s < 76 then 95 else
    if s < 77 then 96 else if s < 78 then 100 else if s < 79 then 101 else if s < 80 then 103 else
    if s < 81 then 104 else if s < 82 then 107 else
    if s < 83 then 108 else if s < 84 then 110 else if s < 85 then 111 else if s < 86 then 116 else
    if s < 87 then 117 else if s < 88 then 119 else
    if s < 89 then 146 else if s < 90 then 120 else if s < 91 then 147 else if s < 92 then 175 else
    if s < 93 then 194 else if s < 94 then 178 else
    if s < 95 then 182 else 52
  }

  function LeafOf3(s: nat): nat {
    if s < 97 then 187 else if s < 98 then 9 else if s < 99 then 53 else if s < 100 then 12 else
    if s < 101 then 56 else if s < 102 then 13 else
    if s < 103 then 57 else if s < 104 then 59 else if s < 105 then 60 else if s < 106 then 15 else
    if s < 107 then 123 else if s < 108 then 124 else
    if s < 109 then 64 else if s < 110 then 65 else if s < 111 then 67 else if s < 112 then 16 else
    if s < 113 then 68 else if s < 114 then 126 else
    if s < 115 then 71 else if s < 116 then 20 else if s < 117 then 21 else if s < 118 then 72 else
    if s < 119 then 127 else if s < 120 then 131 else
    if s < 121 then 132 else if s < 122 then 134 else if s < 123 then 135 else if s < 124 then 189 else
    if s < 125 then 164 else if s < 126 then 183 else
    if s < 127 then 179 else 502
  }

  function LeafOf4(s: nat): nat {
    if s < 129 then 199 else if s < 130 then 242 else if s < 131 then 200 else if s < 132 then 204 else
    if s < 133 then 243 else if s < 134 then 246 else
    if s < 135 then 247 else if s < 136 then 295 else if s < 137 then 249 else if s < 138 then 297 else
    if s < 139 then 298 else if s < 140 then 301 else
    if s < 141 then 302 else if s < 142 then 304 else if s < 143 then 352 else if s < 144 then 305 else
    if s < 145 then 355 else if s < 146 then 356 else
    if s < 147 then 250 else if s < 148 then 311 else if s < 149 then 358 else if s < 150 then 312 else
    if s < 151 then 314 else if s < 152 then 315 else
    if s < 153 then 318 else if s < 154 then 215 else if s < 155 then 254 else if s < 156 then 319 else
    if s < 157 then 255 else if s < 158 then 321 else
    if s < 159 then 322 else 359
  }

  function LeafOf5(s: nat): nat {
    if s < 161 then 257 else if s < 162 then 216 else if s < 163 then 205 else if s < 164 then 258 else
    if s < 165 then 261 else if s < 166 then 326 else
    if s < 167 then 327 else if s < 168 then 218 else if s < 169 then 329 else if s < 170 then 262 else
    if s < 171 then 264 else if s < 172 then 364 else
    if s < 173 then 219 else if s < 174 then 265 else if s < 175 then 330 else if s < 176 then 333 else
    if s < 177 then 225 else if s < 178 then 226 else
    if s < 179 then 271 else if s < 180 then 228 else if s < 181 then 334 else if s < 182 then 272 else
    if s < 183 then 336 else if s < 184 then 337 else
    if s < 185 then 207 else if s < 186 then 274 else if s < 187 then 275 else if s < 188 then 278 else
    if s < 189 then 342 else if s < 190 then 279 else
    if s < 191 then 281 else 343
  }

  function LeafOf6(s: nat): nat {
    if s < 193 then 385 else if s < 194 then 386 else if s < 195 then 208 else if s < 196 then 195 else
    if s < 197 then 282 else if s < 198 then 345 else
    if s < 199 then 286 else if s < 200 then 375 else if s < 201 then 388 else if s < 202 then 389 else
    if s < 203 then 392 else if s < 204 then 412 else
    if s < 205 then 413 else if s < 206 then 393 else if s < 207 then 365 else if s < 208 then 376 else
    if s < 209 then 197 else if s < 210 then 229 else
    if s < 211 then 395 else if s < 212 then 419 else if s < 213 then 420 else if s < 214 then 396 else
    if s < 215 then 422 else if s < 216 then 367 else
    if s < 217 then 232 else if s < 218 then 233 else if s < 219 then 400 else if s < 220 then 401 else
    if s < 221 then 503 else if s < 222 then 423 else
    if s < 223 then 426 else 427
  }

  function LeafOf7(s: nat): nat {
    if s < 225 then 211 else if s < 226 then 368 else if s < 227 then 212 else if s < 228 then 235 else
    if s < 229 then 287 else if s < 230 then 236 else
    if s < 231 then 240 else if s < 232 then 346 else if s < 233 then 289 else if s < 234 then 290 else
    if s < 235 then 378 else if s < 236 then 379 else
    if s < 237 then 371 else if s < 238 then 372 else if s < 239 then 403 else if s < 240 then 349 else
    if s < 241 then 404 else if s < 242 then 429 else
    if s < 243 then 407 else if s < 244 then 408 else if s < 245 then 430 else if s < 246 then 434 else
    if s < 247 then 435 else if s < 248 then 437 else
    if s < 249 then 438 else if s < 250 then 505 else if s < 251 then 441 else if s < 252 then 442 else
    if s < 253 then 444 else if s < 254 then 445 else
    if s < 255 then 450 else 410
  }

  /** The position of each symbol's leaf in the tree; a guide for the proofs below. */
  function LeafOf(s: nat): nat
    requires s < 257
  {
    if s < 32 then LeafOf0(s) else if s < 64 then LeafOf1(s) else if s < 96 then LeafOf2(s) else
    if s < 128 then LeafOf3(s) else
    if s < 160 then LeafOf4(s) else if s < 192 then LeafOf5(s) else if s < 224 then LeafOf6(s) else
    if s < 256 then LeafOf7(s) else
    512
  }

  /** Walks the subtree at node i, which is reached by the len-bit path `code` and is less than
      `height` nodes high, and compares it with the code tables: every leaf must carry the symbol
      whose code word is the path to it. Returns the index after the subtree's last node, or 0 when
      something differs. */
  function Span(i: nat, code: nat, len: nat, height: nat): (e: nat)
    requires i < NODES
    decreases height
  {
    var n := TreeList(i);
    if height == 0 then 0
    else if n.left == 0 then
      if n.right < SYMBOLS && HuffmanCode(n.right) == code && HuffmanCodeLen(n.right) == len && LeafOf(n.right) == i
      then i + 1 else 0
    else if n.left == i + 1 && i + 1 < n.right < NODES && Span(n.left, 2 * code, len + 1, height - 1) == n.right then
      Span(n.right, 2 * code + 1, len + 1, height - 1)
    else 0
  }

  /** A leaf in place. */
  lemma Tip(i: nat, code: nat, len: nat, s: nat, h: nat)
    requires h > 0 && i < NODES && s < SYMBOLS && TreeList(i) == TreeNode(0, s)
    requires HuffmanCode(s) == code && HuffmanCodeLen(s) == len && LeafOf(s) == i
    ensures Span(i, code, len, h) == i + 1
  {
  }

  /** A branch spans what its two subtrees span. */
  lemma Fork(i: nat, code: nat, len: nat, right: nat, e: nat, h: nat)
    requires h > 0 && i + 1 < right < NODES && TreeList(i) == TreeNode(i + 1, right)
    requires Span(i + 1, 2 * code, len + 1, h - 1) == right
    requires Span(right, 2 * code + 1, len + 1, h - 1) == e
    ensures Span(i, code, len, h) == e
  {
  }

  // The tree, a subtree at a time.

  lemma Subtree2(h: nat)
    requires h >= 29
    ensures Span(2, 0x0, 2, h) == 17
  {
    Tip(5, 0x0, 5, 48, h - 3);
    Tip(6, 0x1, 5, 49, h - 3);
    Fork(4, 0x0, 4, 6, 7, h - 2);
    Tip(8, 0x2, 5, 50, h - 3);
    Tip(9, 0x3, 5, 97, h - 3);
    Fork(7, 0x1, 4, 9, 10, h - 2);
    Fork(3, 0x0, 3, 7, 10, h - 1);
    Tip(12, 0x4, 5, 99, h - 3);
    Tip(13, 0x5, 5, 101, h - 3);
    Fork(11, 0x2, 4, 13, 14, h - 2);
    Tip(15, 0x6, 5, 105, h - 3);
    Tip(16, 0x7, 5, 111, h - 3);
    Fork(14, 0x3, 4, 16, 17, h - 2);
    Fork(10, 0x1, 3, 14, 17, h - 1);
    Fork(2, 0x0, 2, 10, 17, h);
  }

  lemma Subtree18(h: nat)
    requires h >= 28
    ensures Span(18, 0x2, 3, h) == 29
  {
    Tip(20, 0x8, 5, 115, h - 2);
    Tip(21, 0x9, 5, 116, h - 2);
    Fork(19, 0x4, 4, 21, 22, h - 1);
    Tip(24, 0x14, 6, 32, h - 3);
    Tip(25, 0x15, 6, 37, h - 3);
    Fork(23, 0xa, 5, 25, 26, h - 2);
    Tip(27, 0x16, 6, 45, h - 3);
    Tip(28, 0x17, 6, 46, h - 3);
    Fork(26, 0xb, 5, 28, 29, h - 2);
    Fork(22, 0x5, 4, 26, 29, h - 1);
    Fork(18, 0x2, 3, 22, 29, h);
  }

  lemma Subtree29(h: nat)
    requires h >= 28
    ensures Span(29, 0x3, 3, h) == 44
  {
    Tip(32, 0x18, 6, 47, h - 3);
    Tip(33, 0x19, 6, 51, h - 3);
    Fork(31, 0xc, 5, 33, 34, h - 2);
    Tip(35, 0x1a, 6, 52, h - 3);
    Tip(36, 0x1b, 6, 53, h - 3);
    Fork(34, 0xd, 5, 36, 37, h - 2);
    Fork(30, 0x6, 4, 34, 37, h - 1);
    Tip(39, 0x1c, 6, 54, h - 3);
    Tip(40, 0x1d, 6, 55, h - 3);
    Fork(38, 0xe, 5, 40, 41, h - 2);
    Tip(42, 0x1e, 6, 56, h - 3);
    Tip(43, 0x1f, 6, 57, h - 3);
    Fork(41, 0xf, 5, 43, 44, h - 2);
    Fork(37, 0x7, 4, 41, 44, h - 1);
    Fork(29, 0x3, 3, 37, 44, h);
  }

  lemma Subtree46(h: nat)
    requires h >= 28
    ensures Span(46, 0x4, 3, h) == 61
  {
    Tip(49, 0x20, 6, 61, h - 3);
    Tip(50, 0x21, 6, 65, h - 3);
    Fork(48, 0x10, 5, 50, 51, h - 2);
    Tip(52, 0x22, 6, 95, h - 3);
    Tip(53, 0x23, 6, 98, h - 3);
    Fork(51, 0x11, 5, 53, 54, h - 2);
    Fork(47, 0x8, 4, 51, 54, h - 1);
    Tip(56, 0x24, 6, 100, h - 3);
    Tip(57, 0x25, 6, 102, h - 3);
    Fork(55, 0x12, 5, 57, 58, h - 2);
    Tip(59, 0x26, 6, 103, h - 3);
    Tip(60, 0x27, 6, 104, h - 3);
    Fork(58, 0x13, 5, 60, 61, h - 2);
    Fork(54, 0x9, 4, 58, 61, h - 1);
    Fork(46, 0x4, 3, 54, 61, h);
  }

  lemma Subtree69(h: nat)
    requires h >= 27
    ensures Span(69, 0xb, 4, h) == 80
  {
    Tip(71, 0x2c, 6, 114, h - 2);
    Tip(72, 0x2d, 6, 117, h - 2);
    Fork(70, 0x16, 5, 72, 73, h - 1);
    Tip(75, 0x5c, 7, 58, h - 3);
    Tip(76, 0x5d, 7, 66, h - 3);
    Fork(74, 0x2e, 6, 76, 77, h - 2);
    Tip(78, 0x5e, 7, 67, h - 3);
    Tip(79, 0x5f, 7, 68, h - 3);
    Fork(77, 0x2f, 6, 79, 80, h - 2);
    Fork(73, 0x17, 5, 77, 80, h - 1);
    Fork(69, 0xb, 4, 73, 80, h);
  }

  lemma Subtree61(h: nat)
    requires h >= 28
    ensures Span(61, 0x5, 3, h) == 80
  {
    Tip(64, 0x28, 6, 108, h - 3);
    Tip(65, 0x29, 6, 109, h - 3);
    Fork(63, 0x14, 5, 65, 66, h - 2);
    Tip(67, 0x2a, 6, 110, h - 3);
    Tip(68, 0x2b, 6, 112, h - 3);
    Fork(66, 0x15, 5, 68, 69, h - 2);
    Fork(62, 0xa, 4, 66, 69, h - 1);
    Subtree69(h - 1);
    Fork(61, 0x5, 3, 69, 80, h);
  }

  lemma Subtree82(h: nat)
    requires h >= 27
    ensures Span(82, 0xc, 4, h) == 97
  {
    Tip(85, 0x60, 7, 69, h - 3);
    Tip(86, 0x61, 7, 70, h - 3);
    Fork(84, 0x30, 6, 86, 87, h - 2);
    Tip(88, 0x62, 7, 71, h - 3);
    Tip(89, 0x63, 7, 72, h - 3);
    Fork(87, 0x31, 6, 89, 90, h - 2);
    Fork(83, 0x18, 5, 87, 90, h - 1);
    Tip(92, 0x64, 7, 73, h - 3);
    Tip(93, 0x65, 7, 74, h - 3);
    Fork(91, 0x32, 6, 93, 94, h - 2);
    Tip(95, 0x66, 7, 75, h - 3);
    Tip(96, 0x67, 7, 76, h - 3);
    Fork(94, 0x33, 6, 96, 97, h - 2);
    Fork(90, 0x19, 5, 94, 97, h - 1);
    Fork(82, 0xc, 4, 90, 97, h);
  }

  lemma Subtree97(h: nat)
    requires h >= 27
    ensures Span(97, 0xd, 4, h) == 112
  {
    Tip(100, 0x68, 7, 77, h - 3);
    Tip(101, 0x69, 7, 78, h - 3);
    Fork(99, 0x34, 6, 101, 102, h - 2);
    Tip(103, 0x6a, 7, 79, h - 3);
    Tip(104, 0x6b, 7, 80, h - 3);
    Fork(102, 0x35, 6, 104, 105, h - 2);
    Fork(98, 0x1a, 5, 102, 105, h - 1);
    Tip(107, 0x6c, 7, 81, h - 3);
    Tip(108, 0x6d, 7, 82, h - 3);
    Fork(106, 0x36, 6, 108, 109, h - 2);
    Tip(110, 0x6e, 7, 83, h - 3);
    Tip(111, 0x6f, 7, 84, h - 3);
    Fork(109, 0x37, 6, 111, 112, h - 2);
    Fork(105, 0x1b, 5, 109, 112, h - 1);
    Fork(97, 0xd, 4, 105, 112, h);
  }

  lemma Subtree113(h: nat)
    requires h >= 27
    ensures Span(113, 0xe, 4, h) == 128
  {
    Tip(116, 0x70, 7, 85, h - 3);
    Tip(117, 0x71, 7, 86, h - 3);
    Fork(115, 0x38, 6, 117, 118, h - 2);
    Tip(119, 0x72, 7, 87, h - 3);
    Tip(120, 0x73, 7, 89, h - 3);
    Fork(118, 0x39, 6, 120, 121, h - 2);
    Fork(114, 0x1c, 5, 118, 121, h - 1);
    Tip(123, 0x74, 7, 106, h - 3);
    Tip(124, 0x75, 7, 107, h - 3);
    Fork(122, 0x3a, 6, 124, 125, h - 2);
    Tip(126, 0x76, 7, 113, h - 3);
    Tip(127, 0x77, 7, 118, h - 3);
    Fork(125, 0x3b, 6, 127, 128, h - 2);
    Fork(121, 0x1d, 5, 125, 128, h - 1);
    Fork(113, 0xe, 4, 121, 128, h);
  }

  lemma Subtree192(h: nat)
    requires h >= 14
    ensures Span(192, 0x1fffc, 17, h) == 201
  {
    Tip(194, 0x7fff0, 19, 92, h - 2);
    Tip(195, 0x7fff1, 19, 195, h - 2);
    Fork(193, 0x3fff8, 18, 195, 196, h - 1);
    Tip(197, 0x7fff2, 19, 208, h - 2);
    Tip(199, 0xfffe6, 20, 128, h - 3);
    Tip(200, 0xfffe7, 20, 130, h - 3);
    Fork(198, 0x7fff3, 19, 200, 201, h - 2);
    Fork(196, 0x3fff9, 18, 198, 201, h - 1);
    Fork(192, 0x1fffc, 17, 196, 201, h);
  }

  lemma Subtree209(h: nat)
    requires h >= 13
    ensures Span(209, 0x3fffb, 18, h) == 220
  {
    Tip(211, 0xfffec, 20, 224, h - 2);
    Tip(212, 0xfffed, 20, 226, h - 2);
    Fork(210, 0x7fff6, 19, 212, 213, h - 1);
    Tip(215, 0x1fffdc, 21, 153, h - 3);
    Tip(216, 0x1fffdd, 21, 161, h - 3);
    Fork(214, 0xfffee, 20, 216, 217, h - 2);
    Tip(218, 0x1fffde, 21, 167, h - 3);
    Tip(219, 0x1fffdf, 21, 172, h - 3);
    Fork(217, 0xfffef, 20, 219, 220, h - 2);
    Fork(213, 0x7fff7, 19, 217, 220, h - 1);
    Fork(209, 0x3fffb, 18, 213, 220, h);
  }

  lemma Subtree201(h: nat)
    requires h >= 14
    ensures Span(201, 0x1fffd, 17, h) == 220
  {
    Tip(204, 0xfffe8, 20, 131, h - 3);
    Tip(205, 0xfffe9, 20, 162, h - 3);
    Fork(203, 0x7fff4, 19, 205, 206, h - 2);
    Tip(207, 0xfffea, 20, 184, h - 3);
    Tip(208, 0xfffeb, 20, 194, h - 3);
    Fork(206, 0x7fff5, 19, 208, 209, h - 2);
    Fork(202, 0x3fffa, 18, 206, 209, h - 1);
    Subtree209(h - 1);
    Fork(201, 0x1fffd, 17, 209, 220, h);
  }

  lemma Subtree222(h: nat)
    requires h >= 13
    ensures Span(222, 0x3fffc, 18, h) == 237
  {
    Tip(225, 0x1fffe0, 21, 176, h - 3);
    Tip(226, 0x1fffe1, 21, 177, h - 3);
    Fork(224, 0xffff0, 20, 226, 227, h - 2);
    Tip(228, 0x1fffe2, 21, 179, h - 3);
    Tip(229, 0x1fffe3, 21, 209, h - 3);
    Fork(227, 0xffff1, 20, 229, 230, h - 2);
    Fork(223, 0x7fff8, 19, 227, 230, h - 1);
    Tip(232, 0x1fffe4, 21, 216, h - 3);
    Tip(233, 0x1fffe5, 21, 217, h - 3);
    Fork(231, 0xffff2, 20, 233, 234, h - 2);
    Tip(235, 0x1fffe6, 21, 227, h - 3);
    Tip(236, 0x1fffe7, 21, 229, h - 3);
    Fork(234, 0xffff3, 20, 236, 237, h - 2);
    Fork(230, 0x7fff9, 19, 234, 237, h - 1);
    Fork(222, 0x3fffc, 18, 230, 237, h);
  }

  lemma Subtree238(h: nat)
    requires h >= 12
    ensures Span(238, 0x7fffa, 19, h) == 251
  {
    Tip(240, 0x1fffe8, 21, 230, h - 2);
    Tip(242, 0x3fffd2, 22, 129, h - 3);
    Tip(243, 0x3fffd3, 22, 132, h - 3);
    Fork(241, 0x1fffe9, 21, 243, 244, h - 2);
    Fork(239, 0xffff4, 20, 241, 244, h - 1);
    Tip(246, 0x3fffd4, 22, 133, h - 3);
    Tip(247, 0x3fffd5, 22, 134, h - 3);
    Fork(245, 0x1fffea, 21, 247, 248, h - 2);
    Tip(249, 0x3fffd6, 22, 136, h - 3);
    Tip(250, 0x3fffd7, 22, 146, h - 3);
    Fork(248, 0x1fffeb, 21, 250, 251, h - 2);
    Fork(244, 0xffff5, 20, 248, 251, h - 1);
    Fork(238, 0x7fffa, 19, 244, 251, h);
  }

  lemma Subtree251(h: nat)
    requires h >= 12
    ensures Span(251, 0x7fffb, 19, h) == 266
  {
    Tip(254, 0x3fffd8, 22, 154, h - 3);
    Tip(255, 0x3fffd9, 22, 156, h - 3);
    Fork(253, 0x1fffec, 21, 255, 256, h - 2);
    Tip(257, 0x3fffda, 22, 160, h - 3);
    Tip(258, 0x3fffdb, 22, 163, h - 3);
    Fork(256, 0x1fffed, 21, 258, 259, h - 2);
    Fork(252, 0xffff6, 20, 256, 259, h - 1);
    Tip(261, 0x3fffdc, 22, 164, h - 3);
    Tip(262, 0x3fffdd, 22, 169, h - 3);
    Fork(260, 0x1fffee, 21, 262, 263, h - 2);
    Tip(264, 0x3fffde, 22, 170, h - 3);
    Tip(265, 0x3fffdf, 22, 173, h - 3);
    Fork(263, 0x1fffef, 21, 265, 266, h - 2);
    Fork(259, 0xffff7, 20, 263, 266, h - 1);
    Fork(251, 0x7fffb, 19, 259, 266, h);
  }

  lemma Subtree268(h: nat)
    requires h >= 12
    ensures Span(268, 0x7fffc, 19, h) == 283
  {
    Tip(271, 0x3fffe0, 22, 178, h - 3);
    Tip(272, 0x3fffe1, 22, 181, h - 3);
    Fork(270, 0x1ffff0, 21, 272, 273, h - 2);
    Tip(274, 0x3fffe2, 22, 185, h - 3);
    Tip(275, 0x3fffe3, 22, 186, h - 3);
    Fork(273, 0x1ffff1, 21, 275, 276, h - 2);
    Fork(269, 0xffff8, 20, 273, 276, h - 1);
    Tip(278, 0x3fffe4, 22, 187, h - 3);
    Tip(279, 0x3fffe5, 22, 189, h - 3);
    Fork(277, 0x1ffff2, 21, 279, 280, h - 2);
    Tip(281, 0x3fffe6, 22, 190, h - 3);
    Tip(282, 0x3fffe7, 22, 196, h - 3);
    Fork(280, 0x1ffff3, 21, 282, 283, h - 2);
    Fork(276, 0xffff9, 20, 280, 283, h - 1);
    Fork(268, 0x7fffc, 19, 276, 283, h);
  }

  lemma Subtree291(h: nat)
    requires h >= 11
    ensures Span(291, 0xffffb, 20, h) == 306
  {
    Tip(294, 0x7fffd8, 23, 1, h - 3);
    Tip(295, 0x7fffd9, 23, 135, h - 3);
    Fork(293, 0x3fffec, 22, 295, 296, h - 2);
    Tip(297, 0x7fffda, 23, 137, h - 3);
    Tip(298, 0x7fffdb, 23, 138, h - 3);
    Fork(296, 0x3fffed, 22, 298, 299, h - 2);
    Fork(292, 0x1ffff6, 21, 296, 299, h - 1);
    Tip(301, 0x7fffdc, 23, 139, h - 3);
    Tip(302, 0x7fffdd, 23, 140, h - 3);
    Fork(300, 0x3fffee, 22, 302, 303, h - 2);
    Tip(304, 0x7fffde, 23, 141, h - 3);
    Tip(305, 0x7fffdf, 23, 143, h - 3);
    Fork(303, 0x3fffef, 22, 305, 306, h - 2);
    Fork(299, 0x1ffff7, 21, 303, 306, h - 1);
    Fork(291, 0xffffb, 20, 299, 306, h);
  }

  lemma Subtree283(h: nat)
    requires h >= 12
    ensures Span(283, 0x7fffd, 19, h) == 306
  {
    Tip(286, 0x3fffe8, 22, 198, h - 3);
    Tip(287, 0x3fffe9, 22, 228, h - 3);
    Fork(285, 0x1ffff4, 21, 287, 288, h - 2);
    Tip(289, 0x3fffea, 22, 232, h - 3);
    Tip(290, 0x3fffeb, 22, 233, h - 3);
    Fork(288, 0x1ffff5, 21, 290, 291, h - 2);
    Fork(284, 0xffffa, 20, 288, 291, h - 1);
    Subtree291(h - 1);
    Fork(283, 0x7fffd, 19, 291, 306, h);
  }

  lemma Subtree308(h: nat)
    requires h >= 11
    ensures Span(308, 0xffffc, 20, h) == 323
  {
    Tip(311, 0x7fffe0, 23, 147, h - 3);
    Tip(312, 0x7fffe1, 23, 149, h - 3);
    Fork(310, 0x3ffff0, 22, 312, 313, h - 2);
    Tip(314, 0x7fffe2, 23, 150, h - 3);
    Tip(315, 0x7fffe3, 23, 151, h - 3);
    Fork(313, 0x3ffff1, 22, 315, 316, h - 2);
    Fork(309, 0x1ffff8, 21, 313, 316, h - 1);
    Tip(318, 0x7fffe4, 23, 152, h - 3);
    Tip(319, 0x7fffe5, 23, 155, h - 3);
    Fork(317, 0x3ffff2, 22, 319, 320, h - 2);
    Tip(321, 0x7fffe6, 23, 157, h - 3);
    Tip(322, 0x7fffe7, 23, 158, h - 3);
    Fork(320, 0x3ffff3, 22, 322, 323, h - 2);
    Fork(316, 0x1ffff9, 21, 320, 323, h - 1);
    Fork(308, 0xffffc, 20, 316, 323, h);
  }

  lemma Subtree323(h: nat)
    requires h >= 11
    ensures Span(323, 0xffffd, 20, h) == 338
  {
    Tip(326, 0x7fffe8, 23, 165, h - 3);
    Tip(327, 0x7fffe9, 23, 166, h - 3);
    Fork(325, 0x3ffff4, 22, 327, 328, h - 2);
    Tip(329, 0x7fffea, 23, 168, h - 3);
    Tip(330, 0x7fffeb, 23, 174, h - 3);
    Fork(328, 0x3ffff5, 22, 330, 331, h - 2);
    Fork(324, 0x1ffffa, 21, 328, 331, h - 1);
    Tip(333, 0x7fffec, 23, 175, h - 3);
    Tip(334, 0x7fffed, 23, 180, h - 3);
    Fork(332, 0x3ffff6, 22, 334, 335, h - 2);
    Tip(336, 0x7fffee, 23, 182, h - 3);
    Tip(337, 0x7fffef, 23, 183, h - 3);
    Fork(335, 0x3ffff7, 22, 337, 338, h - 2);
    Fork(331, 0x1ffffb, 21, 335, 338, h - 1);
    Fork(323, 0xffffd, 20, 331, 338, h);
  }

  lemma Subtree347(h: nat)
    requires h >= 10
    ensures Span(347, 0x1ffffd, 21, h) == 360
  {
    Tip(349, 0x7ffff4, 23, 239, h - 2);
    Tip(351, 0xffffea, 24, 9, h - 3);
    Tip(352, 0xffffeb, 24, 142, h - 3);
    Fork(350, 0x7ffff5, 23, 352, 353, h - 2);
    Fork(348, 0x3ffffa, 22, 350, 353, h - 1);
    Tip(355, 0xffffec, 24, 144, h - 3);
    Tip(356, 0xffffed, 24, 145, h - 3);
    Fork(354, 0x7ffff6, 23, 356, 357, h - 2);
    Tip(358, 0xffffee, 24, 148, h - 3);
    Tip(359, 0xffffef, 24, 159, h - 3);
    Fork(357, 0x7ffff7, 23, 359, 360, h - 2);
    Fork(353, 0x3ffffb, 22, 357, 360, h - 1);
    Fork(347, 0x1ffffd, 21, 353, 360, h);
  }

  lemma Subtree339(h: nat)
    requires h >= 11
    ensures Span(339, 0xffffe, 20, h) == 360
  {
    Tip(342, 0x7ffff0, 23, 188, h - 3);
    Tip(343, 0x7ffff1, 23, 191, h - 3);
    Fork(341, 0x3ffff8, 22, 343, 344, h - 2);
    Tip(345, 0x7ffff2, 23, 197, h - 3);
    Tip(346, 0x7ffff3, 23, 231, h - 3);
    Fork(344, 0x3ffff9, 22, 346, 347, h - 2);
    Fork(340, 0x1ffffc, 21, 344, 347, h - 1);
    Subtree347(h - 1);
    Fork(339, 0xffffe, 20, 347, 360, h);
  }

  lemma Subtree369(h: nat)
    requires h >= 9
    ensures Span(369, 0x3ffffd, 22, h) == 380
  {
    Tip(371, 0xfffff4, 24, 236, h - 2);
    Tip(372, 0xfffff5, 24, 237, h - 2);
    Fork(370, 0x7ffffa, 23, 372, 373, h - 1);
    Tip(375, 0x1ffffec, 25, 199, h - 3);
    Tip(376, 0x1ffffed, 25, 207, h - 3);
    Fork(374, 0xfffff6, 24, 376, 377, h - 2);
    Tip(378, 0x1ffffee, 25, 234, h - 3);
    Tip(379, 0x1ffffef, 25, 235, h - 3);
    Fork(377, 0xfffff7, 24, 379, 380, h - 2);
    Fork(373, 0x7ffffb, 23, 377, 380, h - 1);
    Fork(369, 0x3ffffd, 22, 373, 380, h);
  }

  lemma Subtree361(h: nat)
    requires h >= 10
    ensures Span(361, 0x1ffffe, 21, h) == 380
  {
    Tip(364, 0xfffff0, 24, 171, h - 3);
    Tip(365, 0xfffff1, 24, 206, h - 3);
    Fork(363, 0x7ffff8, 23, 365, 366, h - 2);
    Tip(367, 0xfffff2, 24, 215, h - 3);
    Tip(368, 0xfffff3, 24, 225, h - 3);
    Fork(366, 0x7ffff9, 23, 368, 369, h - 2);
    Fork(362, 0x3ffffc, 22, 366, 369, h - 1);
    Subtree369(h - 1);
    Fork(361, 0x1ffffe, 21, 369, 380, h);
  }

  lemma Subtree382(h: nat)
    requires h >= 8
    ensures Span(382, 0x7ffffc, 23, h) == 397
  {
    Tip(385, 0x3ffffe0, 26, 192, h - 3);
    Tip(386, 0x3ffffe1, 26, 193, h - 3);
    Fork(384, 0x1fffff0, 25, 386, 387, h - 2);
    Tip(388, 0x3ffffe2, 26, 200, h - 3);
    Tip(389, 0x3ffffe3, 26, 201, h - 3);
    Fork(387, 0x1fffff1, 25, 389, 390, h - 2);
    Fork(383, 0xfffff8, 24, 387, 390, h - 1);
    Tip(392, 0x3ffffe4, 26, 202, h - 3);
    Tip(393, 0x3ffffe5, 26, 205, h - 3);
    Fork(391, 0x1fffff2, 25, 393, 394, h - 2);
    Tip(395, 0x3ffffe6, 26, 210, h - 3);
    Tip(396, 0x3ffffe7, 26, 213, h - 3);
    Fork(394, 0x1fffff3, 25, 396, 397, h - 2);
    Fork(390, 0xfffff9, 24, 394, 397, h - 1);
    Fork(382, 0x7ffffc, 23, 390, 397, h);
  }

  lemma Subtree405(h: nat)
    requires h >= 7
    ensures Span(405, 0xfffffb, 24, h) == 414
  {
    Tip(407, 0x3ffffec, 26, 242, h - 2);
    Tip(408, 0x3ffffed, 26, 243, h - 2);
    Fork(406, 0x1fffff6, 25, 408, 409, h - 1);
    Tip(410, 0x3ffffee, 26, 255, h - 2);
    Tip(412, 0x7ffffde, 27, 203, h - 3);
    Tip(413, 0x7ffffdf, 27, 204, h - 3);
    Fork(411, 0x3ffffef, 26, 413, 414, h - 2);
    Fork(409, 0x1fffff7, 25, 411, 414, h - 1);
    Fork(405, 0xfffffb, 24, 409, 414, h);
  }

  lemma Subtree397(h: nat)
    requires h >= 8
    ensures Span(397, 0x7ffffd, 23, h) == 414
  {
    Tip(400, 0x3ffffe8, 26, 218, h - 3);
    Tip(401, 0x3ffffe9, 26, 219, h - 3);
    Fork(399, 0x1fffff4, 25, 401, 402, h - 2);
    Tip(403, 0x3ffffea, 26, 238, h - 3);
    Tip(404, 0x3ffffeb, 26, 240, h - 3);
    Fork(402, 0x1fffff5, 25, 404, 405, h - 2);
    Fork(398, 0xfffffa, 24, 402, 405, h - 1);
    Subtree405(h - 1);
    Fork(397, 0x7ffffd, 23, 405, 414, h);
  }

  lemma Subtree416(h: nat)
    requires h >= 7
    ensures Span(416, 0xfffffc, 24, h) == 431
  {
    Tip(419, 0x7ffffe0, 27, 211, h - 3);
    Tip(420, 0x7ffffe1, 27, 212, h - 3);
    Fork(418, 0x3fffff0, 26, 420, 421, h - 2);
    Tip(422, 0x7ffffe2, 27, 214, h - 3);
    Tip(423, 0x7ffffe3, 27, 221, h - 3);
    Fork(421, 0x3fffff1, 26, 423, 424, h - 2);
    Fork(417, 0x1fffff8, 25, 421, 424, h - 1);
    Tip(426, 0x7ffffe4, 27, 222, h - 3);
    Tip(427, 0x7ffffe5, 27, 223, h - 3);
    Fork(425, 0x3fffff2, 26, 427, 428, h - 2);
    Tip(429, 0x7ffffe6, 27, 241, h - 3);
    Tip(430, 0x7ffffe7, 27, 244, h - 3);
    Fork(428, 0x3fffff3, 26, 430, 431, h - 2);
    Fork(424, 0x1fffff9, 25, 428, 431, h - 1);
    Fork(416, 0xfffffc, 24, 424, 431, h);
  }

  lemma Subtree431(h: nat)
    requires h >= 7
    ensures Span(431, 0xfffffd, 24, h) == 446
  {
    Tip(434, 0x7ffffe8, 27, 245, h - 3);
    Tip(435, 0x7ffffe9, 27, 246, h - 3);
    Fork(433, 0x3fffff4, 26, 435, 436, h - 2);
    Tip(437, 0x7ffffea, 27, 247, h - 3);
    Tip(438, 0x7ffffeb, 27, 248, h - 3);
    Fork(436, 0x3fffff5, 26, 438, 439, h - 2);
    Fork(432, 0x1fffffa, 25, 436, 439, h - 1);
    Tip(441, 0x7ffffec, 27, 250, h - 3);
    Tip(442, 0x7ffffed, 27, 251, h - 3);
    Fork(440, 0x3fffff6, 26, 442, 443, h - 2);
    Tip(444, 0x7ffffee, 27, 252, h - 3);
    Tip(445, 0x7ffffef, 27, 253, h - 3);
    Fork(443, 0x3fffff7, 26, 445, 446, h - 2);
    Fork(439, 0x1fffffb, 25, 443, 446, h - 1);
    Fork(431, 0xfffffd, 24, 439, 446, h);
  }

  lemma Subtree448(h: nat)
    requires h >= 6
    ensures Span(448, 0x1fffffc, 25, h) == 461
  {
    Tip(450, 0x7fffff0, 27, 254, h - 2);
    Tip(452, 0xfffffe2, 28, 2, h - 3);
    Tip(453, 0xfffffe3, 28, 3, h - 3);
    Fork(451, 0x7fffff1, 27, 453, 454, h - 2);
    Fork(449, 0x3fffff8, 26, 451, 454, h - 1);
    Tip(456, 0xfffffe4, 28, 4, h - 3);
    Tip(457, 0xfffffe5, 28, 5, h - 3);
    Fork(455, 0x7fffff2, 27, 457, 458, h - 2);
    Tip(459, 0xfffffe6, 28, 6, h - 3);
    Tip(460, 0xfffffe7, 28, 7, h - 3);
    Fork(458, 0x7fffff3, 27, 460, 461, h - 2);
    Fork(454, 0x3fffff9, 26, 458, 461, h - 1);
    Fork(448, 0x1fffffc, 25, 454, 461, h);
  }

  lemma Subtree461(h: nat)
    requires h >= 6
    ensures Span(461, 0x1fffffd, 25, h) == 476
  {
    Tip(464, 0xfffffe8, 28, 8, h - 3);
    Tip(465, 0xfffffe9, 28, 11, h - 3);
    Fork(463, 0x7fffff4, 27, 465, 466, h - 2);
    Tip(467, 0xfffffea, 28, 12, h - 3);
    Tip(468, 0xfffffeb, 28, 14, h - 3);
    Fork(466, 0x7fffff5, 27, 468, 469, h - 2);
    Fork(462, 0x3fffffa, 26, 466, 469, h - 1);
    Tip(471, 0xfffffec, 28, 15, h - 3);
    Tip(472, 0xfffffed, 28, 16, h - 3);
    Fork(470, 0x7fffff6, 27, 472, 473, h - 2);
    Tip(474, 0xfffffee, 28, 17, h - 3);
    Tip(475, 0xfffffef, 28, 18, h - 3);
    Fork(473, 0x7fffff7, 27, 475, 476, h - 2);
    Fork(469, 0x3fffffb, 26, 473, 476, h - 1);
    Fork(461, 0x1fffffd, 25, 469, 476, h);
  }

  lemma Subtree477(h: nat)
    requires h >= 6
    ensures Span(477, 0x1fffffe, 25, h) == 492
  {
    Tip(480, 0xffffff0, 28, 19, h - 3);
    Tip(481, 0xffffff1, 28, 20, h - 3);
    Fork(479, 0x7fffff8, 27, 481, 482, h - 2);
    Tip(483, 0xffffff2, 28, 21, h - 3);
    Tip(484, 0xffffff3, 28, 23, h - 3);
    Fork(482, 0x7fffff9, 27, 484, 485, h - 2);
    Fork(478, 0x3fffffc, 26, 482, 485, h - 1);
    Tip(487, 0xffffff4, 28, 24, h - 3);
    Tip(488, 0xffffff5, 28, 25, h - 3);
    Fork(486, 0x7fffffa, 27, 488, 489, h - 2);
    Tip(490, 0xffffff6, 28, 26, h - 3);
    Tip(491, 0xffffff7, 28, 27, h - 3);
    Fork(489, 0x7fffffb, 27, 491, 492, h - 2);
    Fork(485, 0x3fffffd, 26, 489, 492, h - 1);
    Fork(477, 0x1fffffe, 25, 485, 492, h);
  }

  lemma Subtree504(h: nat)
    requires h >= 4
    ensures Span(504, 0x7ffffff, 27, h) == 513
  {
    Tip(505, 0xffffffe, 28, 249, h - 1);
    Tip(508, 0x3ffffffc, 30, 10, h - 3);
    Tip(509, 0x3ffffffd, 30, 13, h - 3);
    Fork(507, 0x1ffffffe, 29, 509, 510, h - 2);
    Tip(511, 0x3ffffffe, 30, 22, h - 3);
    Tip(512, 0x3fffffff, 30, 256, h - 3);
    Fork(510, 0x1fffffff, 29, 512, 513, h - 2);
    Fork(506, 0xfffffff, 28, 510, 513, h - 1);
    Fork(504, 0x7ffffff, 27, 506, 513, h);
  }

  lemma Subtree492(h: nat)
    requires h >= 6
    ensures Span(492, 0x1ffffff, 25, h) == 513
  {
    Tip(495, 0xffffff8, 28, 28, h - 3);
    Tip(496, 0xffffff9, 28, 29, h - 3);
    Fork(494, 0x7fffffc, 27, 496, 497, h - 2);
    Tip(498, 0xffffffa, 28, 30, h - 3);
    Tip(499, 0xffffffb, 28, 31, h - 3);
    Fork(497, 0x7fffffd, 27, 499, 500, h - 2);
    Fork(493, 0x3fffffe, 26, 497, 500, h - 1);
    Tip(502, 0xffffffc, 28, 127, h - 3);
    Tip(503, 0xffffffd, 28, 220, h - 3);
    Fork(501, 0x7fffffe, 27, 503, 504, h - 2);
    Subtree504(h - 2);
    Fork(500, 0x3ffffff, 26, 504, 513, h - 1);
    Fork(492, 0x1ffffff, 25, 500, 513, h);
  }

  lemma Subtree414(h: nat)
    requires h >= 9
    ensures Span(414, 0x3fffff, 22, h) == 513
  {
    Subtree416(h - 2); Subtree431(h - 2); Fork(415, 0x7ffffe, 23, 431, 446, h - 1); Subtree448(h - 3);
    Subtree461(h - 3); Fork(447, 0xfffffe, 24, 461, 476, h - 2); Subtree477(h - 3); Subtree492(h - 3);
    Fork(476, 0xffffff, 24, 492, 513, h - 2);
    Fork(446, 0x7fffff, 23, 476, 513, h - 1);
    Fork(414, 0x3fffff, 22, 446, 513, h);
  }

  lemma Subtree338(h: nat)
    requires h >= 12
    ensures Span(338, 0x7ffff, 19, h) == 513
  {
    Subtree339(h - 1); Subtree361(h - 2); Subtree382(h - 4); Subtree397(h - 4);
    Fork(381, 0x3ffffe, 22, 397, 414, h - 3);
    Subtree414(h - 3);
    Fork(380, 0x1fffff, 21, 414, 513, h - 2);
    Fork(360, 0xfffff, 20, 380, 513, h - 1);
    Fork(338, 0x7ffff, 19, 360, 513, h);
  }

  lemma Subtree266(h: nat)
    requires h >= 14
    ensures Span(266, 0x1ffff, 17, h) == 513
  {
    Subtree268(h - 2); Subtree283(h - 2); Fork(267, 0x3fffe, 18, 283, 306, h - 1); Subtree308(h - 3);
    Subtree323(h - 3); Fork(307, 0x7fffe, 19, 323, 338, h - 2); Subtree338(h - 2);
    Fork(306, 0x3ffff, 18, 338, 513, h - 1);
    Fork(266, 0x1ffff, 17, 306, 513, h);
  }

  lemma Subtree191(h: nat)
    requires h >= 15
    ensures Span(191, 0xfffe, 16, h) == 220
  {
    Subtree192(h - 1);
    Subtree201(h - 1);
    Fork(191, 0xfffe, 16, 201, 220, h);
  }

  lemma Subtree221(h: nat)
    requires h >= 14
    ensures Span(221, 0x1fffe, 17, h) == 266
  {
    Subtree222(h - 1);
    Subtree238(h - 2);
    Subtree251(h - 2);
    Fork(237, 0x3fffd, 18, 251, 266, h - 1);
    Fork(221, 0x1fffe, 17, 237, 266, h);
  }

  lemma Subtree190(h: nat)
    requires h >= 16
    ensures Span(190, 0x7fff, 15, h) == 513
  {
    Subtree191(h - 1);
    Subtree221(h - 2);
    Subtree266(h - 2);
    Fork(220, 0xffff, 16, 266, 513, h - 1);
    Fork(190, 0x7fff, 15, 220, 513, h);
  }

  lemma Subtree180(h: nat)
    requires h >= 19
    ensures Span(180, 0xfff, 12, h) == 513
  {
    Tip(182, 0x3ffc, 14, 94, h - 2);
    Tip(183, 0x3ffd, 14, 125, h - 2);
    Fork(181, 0x1ffe, 13, 183, 184, h - 1);
    Tip(186, 0x7ffc, 15, 60, h - 3);
    Tip(187, 0x7ffd, 15, 96, h - 3);
    Fork(185, 0x3ffe, 14, 187, 188, h - 2);
    Tip(189, 0x7ffe, 15, 123, h - 3);
    Subtree190(h - 3);
    Fork(188, 0x3fff, 14, 190, 513, h - 2);
    Fork(184, 0x1fff, 13, 188, 513, h - 1);
    Fork(180, 0xfff, 12, 184, 513, h);
  }

  lemma Subtree168(h: nat)
    requires h >= 21
    ensures Span(168, 0x3ff, 10, h) == 513
  {
    Tip(171, 0x1ff8, 13, 0, h - 3);
    Tip(172, 0x1ff9, 13, 36, h - 3);
    Fork(170, 0xffc, 12, 172, 173, h - 2);
    Tip(174, 0x1ffa, 13, 64, h - 3);
    Tip(175, 0x1ffb, 13, 91, h - 3);
    Fork(173, 0xffd, 12, 175, 176, h - 2);
    Fork(169, 0x7fe, 11, 173, 176, h - 1);
    Tip(178, 0x1ffc, 13, 93, h - 3);
    Tip(179, 0x1ffd, 13, 126, h - 3);
    Fork(177, 0xffe, 12, 179, 180, h - 2);
    Subtree180(h - 2);
    Fork(176, 0x7ff, 11, 180, 513, h - 1);
    Fork(168, 0x3ff, 10, 176, 513, h);
  }

  lemma Subtree156(h: nat)
    requires h >= 23
    ensures Span(156, 0xff, 8, h) == 513
  {
    Tip(158, 0x3fc, 10, 63, h - 2);
    Tip(160, 0x7fa, 11, 39, h - 3);
    Tip(161, 0x7fb, 11, 43, h - 3);
    Fork(159, 0x3fd, 10, 161, 162, h - 2);
    Fork(157, 0x1fe, 9, 159, 162, h - 1);
    Tip(164, 0x7fc, 11, 124, h - 3);
    Tip(166, 0xffa, 12, 35, h - 4);
    Tip(167, 0xffb, 12, 62, h - 4);
    Fork(165, 0x7fd, 11, 167, 168, h - 3);
    Fork(163, 0x3fe, 10, 165, 168, h - 2);
    Subtree168(h - 2);
    Fork(162, 0x1ff, 9, 168, 513, h - 1);
    Fork(156, 0xff, 8, 162, 513, h);
  }

  lemma Subtree148(h: nat)
    requires h >= 24
    ensures Span(148, 0x7f, 7, h) == 513
  {
    Tip(151, 0x3f8, 10, 33, h - 3);
    Tip(152, 0x3f9, 10, 34, h - 3);
    Fork(150, 0x1fc, 9, 152, 153, h - 2);
    Tip(154, 0x3fa, 10, 40, h - 3);
    Tip(155, 0x3fb, 10, 41, h - 3);
    Fork(153, 0x1fd, 9, 155, 156, h - 2);
    Fork(149, 0xfe, 8, 153, 156, h - 1);
    Subtree156(h - 1);
    Fork(148, 0x7f, 7, 156, 513, h);
  }

  lemma Subtree136(h: nat)
    requires h >= 26
    ensures Span(136, 0x1f, 5, h) == 513
  {
    Tip(139, 0xf8, 8, 38, h - 3);
    Tip(140, 0xf9, 8, 42, h - 3);
    Fork(138, 0x7c, 7, 140, 141, h - 2);
    Tip(142, 0xfa, 8, 44, h - 3);
    Tip(143, 0xfb, 8, 59, h - 3);
    Fork(141, 0x7d, 7, 143, 144, h - 2);
    Fork(137, 0x3e, 6, 141, 144, h - 1);
    Tip(146, 0xfc, 8, 88, h - 3);
    Tip(147, 0xfd, 8, 90, h - 3);
    Fork(145, 0x7e, 7, 147, 148, h - 2);
    Subtree148(h - 2);
    Fork(144, 0x3f, 6, 148, 513, h - 1);
    Fork(136, 0x1f, 5, 144, 513, h);
  }

  lemma Subtree128(h: nat)
    requires h >= 27
    ensures Span(128, 0xf, 4, h) == 513
  {
    Tip(131, 0x78, 7, 119, h - 3);
    Tip(132, 0x79, 7, 120, h - 3);
    Fork(130, 0x3c, 6, 132, 133, h - 2);
    Tip(134, 0x7a, 7, 121, h - 3);
    Tip(135, 0x7b, 7, 122, h - 3);
    Fork(133, 0x3d, 6, 135, 136, h - 2);
    Fork(129, 0x1e, 5, 133, 136, h - 1);
    Subtree136(h - 1);
    Fork(128, 0xf, 4, 136, 513, h);
  }

  lemma Subtree44(h: nat)
    requires h >= 30
    ensures Span(44, 0x1, 1, h) == 513
  {
    Subtree46(h - 2); Subtree61(h - 2); Fork(45, 0x2, 2, 61, 80, h - 1); Subtree82(h - 3); Subtree97(h - 3);
    Fork(81, 0x6, 3, 97, 112, h - 2);
    Subtree113(h - 3);
    Subtree128(h - 3);
    Fork(112, 0x7, 3, 128, 513, h - 2);
    Fork(80, 0x3, 2, 112, 513, h - 1);
    Fork(44, 0x1, 1, 80, 513, h);
  }

  /** The whole tree spells the code tables: all 513 nodes are covered. */
  lemma WholeTree(h: nat)
    requires h >= 31
    ensures Span(0, 0x0, 0, h) == NODES
  {
    Subtree2(h - 2); Subtree18(h - 3); Subtree29(h - 3); Fork(17, 0x1, 2, 29, 44, h - 2);
    Fork(1, 0x0, 1, 17, 44, h - 1);
    Subtree44(h - 1);
    Fork(0, 0x0, 0, 44, 513, h);
  }

  lemma Placed0(s: nat)
    requires 0 <= s < 32
    ensures LeafOf(s) < NODES && TreeList(LeafOf(s)) == TreeNode(0, s)
  {
  }

  lemma Placed32(s: nat)
    requires 32 <= s < 64
    ensures LeafOf(s) < NODES && TreeList(LeafOf(s)) == TreeNode(0, s)
  {
  }

  lemma Placed64(s: nat)
    requires 64 <= s < 96
    ensures LeafOf(s) < NODES && TreeList(LeafOf(s)) == TreeNode(0, s)
  {
  }

  lemma Placed96(s: nat)
    requires 96 <= s < 128
    ensures LeafOf(s) < NODES && TreeList(LeafOf(s)) == TreeNode(0, s)
  {
  }

  lemma Placed128(s: nat)
    requires 128 <= s < 160
    ensures LeafOf(s) < NODES && TreeList(LeafOf(s)) == TreeNode(0, s)
  {
  }

  lemma Placed160(s: nat)
    requires 160 <= s < 192
    ensures LeafOf(s) < NODES && TreeList(LeafOf(s)) == TreeNode(0, s)
  {
  }

  lemma Placed192(s: nat)
    requires 192 <= s < 224
    ensures LeafOf(s) < NODES && TreeList(LeafOf(s)) == TreeNode(0, s)
  {
  }

  lemma Placed224(s: nat)
    requires 224 <= s < 257
    ensures LeafOf(s) < NODES && TreeList(LeafOf(s)) == TreeNode(0, s)
  {
  }

  /** Every symbol has its leaf. */
  lemma SymbolPlaced(s: nat)
    requires s < SYMBOLS
    ensures LeafOf(s) < NODES && TreeList(LeafOf(s)) == TreeNode(0, s)
  {
    if
    case 0 <= s < 32 => Placed0(s);
    case 32 <= s < 64 => Placed32(s);
    case 64 <= s < 96 => Placed64(s);
    case 96 <= s < 128 => Placed96(s);
    case 128 <= s < 160 => Placed128(s);
    case 160 <= s < 192 => Placed160(s);
    case 192 <= s < 224 => Placed192(s);
    case 224 <= s < 257 => Placed224(s);
  }
}
